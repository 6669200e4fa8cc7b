# Loyalty-points ingestion pipeline, modelled in Dafny

The system turns Shopify "order created" webhooks into loyalty points: one euro
spent is one point. Four parts make up its core:

- a signature gate that checks the `X-Shopify-Hmac-Sha256` header against the
  base64 HMAC-SHA256 of the raw body before a webhook is accepted;
- a Redis store that holds a FIFO queue of serialized orders and one expiring
  "processed" key per webhook id. The intake route enqueues
  `JSON.stringify(req.body)`, a re-serialization of the parsed request; only
  the signature gate sees the raw body;
- a background worker that pops serialized orders, credits them and marks
  their ids processed, re-enqueueing a payload whose processing throws;
- the loyalty ledger, which holds the customers table and the transactions
  table. Each order is credited at most once: a fingerprint of the customer's
  Shopify id and the order id is checked before crediting.

The project is five modules:

| file | module | models |
|---|---|---|
| `results.dfy` | `Results` | `Option`, `Result` and `Outcome` values shared by the others |
| `loyalty_service.dfy` | `LoyaltyService` | the ledger: pure functions over `Tables`, and the class `Ledger` whose methods change the tables one SQL statement at a time |
| `redis_store.dfy` | `RedisConfig` | keys, the dedup keys with their TTL, the queue, and the class `RedisStore` |
| `webhook_worker.dfy` | `WebhookWorker` | one loop iteration as a function (`Iterate`), whole runs (`Run`), the intake route, and the class `Worker` with its running flag |
| `hmac_verification.dfy` | `HmacVerification` | UTF-8, base64 (section 4 of RFC 4648), `timingSafeEqual`, and the gate's decision |

Each imperative operation is a method whose `ensures` ties its new state and its
result to a pure function of the old state. Examples are
`(tables, r) == CreditOrder(old(tables), …)` and
`(State(), r) == Iterate(old(State()), …)`. The properties of the system are
lemmas about those functions.

Each database call (a serializable transaction) is one atomic step. The
ledger's invariant is `TablesValid`, which holds these conditions:

- customers are indexed by email;
- ids are consecutive;
- Shopify ids are unique;
- every transaction belongs to a customer, adds a positive number of points,
  and carries the fingerprint of that customer's Shopify id and its order id;
- fingerprints are unique;
- each balance is the sum of that customer's `points_added`.

Outside effects are parameters:

- SHA-256 is a function `string -> string`;
- HMAC-SHA256 is a function over byte sequences;
- `JSON.parse` with field extraction is `string -> Option<Order>`;
- the clock is an integer instant `now`;
- every database or Redis failure is a boolean fault flag. A failed call
  applies nothing.

## Model

| member | source | states |
|---|---|---|
| LoyaltyService.PointsFromCents | src/services/loyaltyService.ts:90 | points are the floor of the price: `points*100 <= cents < points*100 + 100` |
| LoyaltyService.TransactionHashInput | src/services/loyaltyService.ts:22 | no contract: computes the string `${shopifyId}-${orderId}`, with JavaScript's decimal rendering of both ids; its round trip and injectivity are the next two rows |
| LoyaltyService.IntToDecimalRoundTrip | src/services/loyaltyService.ts:22 | the decimal rendering of an id parses back to the same integer, negative ids included |
| LoyaltyService.TransactionHashInputRoundTrip | src/services/loyaltyService.ts:22 | the string `shopifyId-orderId` can be split back into its two ids |
| LoyaltyService.TransactionHashInputInjective | src/services/loyaltyService.ts:18-24 | distinct (shopify id, order id) pairs give distinct hash inputs |
| LoyaltyService.GenerateTransactionHash | src/services/loyaltyService.ts:18-24 | no contract: computes SHA-256 (hexadecimal) of the hash input; that it depends on the pair alone, and how far it separates pairs, is the next row |
| LoyaltyService.FingerprintDeterminesOrder | src/services/loyaltyService.ts:18-24 | with an injective SHA-256, equal fingerprints mean equal (shopify id, order id) pairs |
| LoyaltyService.EmptyTablesValid | src/config/database.ts:38-66 | the empty tables satisfy every ledger invariant |
| LoyaltyService.BalancesNonNegative | src/services/loyaltyService.ts:135-141 | in valid tables every balance is at least zero |
| LoyaltyService.AtMostOneTransactionPerOrder | src/config/database.ts:63 | in valid tables, two transactions with the same customer Shopify id and the same order id are the same transaction |
| LoyaltyService.InsertCustomer | src/services/loyaltyService.ts:46-51 | no contract: computes the tables after `INSERT INTO customers` with the next serial id and balance 0; the same statement at lines 110-115 uses it too. Its partner is InsertCustomerKeepsValid |
| LoyaltyService.AddToBalance | src/services/loyaltyService.ts:135-141 | no contract: computes the tables after the UPDATE that adds the points to one customer's balance. Its partner is RecordCreditKeepsValid |
| LoyaltyService.AppendTransaction | src/services/loyaltyService.ts:145-150 | no contract: computes the tables after `INSERT INTO transactions` with the next serial id, the order id, the amount, the points and the fingerprint. Its partner is RecordCreditKeepsValid |
| LoyaltyService.InsertCustomerKeepsValid | src/services/loyaltyService.ts:46-51 | inserting a new email with an unused Shopify id and a zero balance keeps every invariant |
| LoyaltyService.RecordCreditKeepsValid | src/services/loyaltyService.ts:135-150 | raising a balance and appending its transaction, with a fresh fingerprint, keeps every invariant |
| LoyaltyService.GetOrCreate | src/services/loyaltyService.ts:26-70 | fails exactly on a storage fault or a Shopify id clash for a new email, and then changes nothing; a known email gets its row back unchanged; an unknown email gets a new row with balance 0 and the given Shopify id, and every other row stays as it was |
| LoyaltyService.GetOrCreateKeepsValid | src/services/loyaltyService.ts:26-70 | `getOrCreateCustomer` keeps every ledger invariant |
| LoyaltyService.FingerprintOwner | src/services/loyaltyService.ts:103-118 | no contract: computes the Shopify id the fingerprint uses, which is the existing customer's or else the order id. CreditOrderCredits states that the credited customer holds it |
| LoyaltyService.CreditOrder | src/services/loyaltyService.ts:72-168 | anything but a credit leaves the tables unchanged (rollback); a rejection is always `{success:false,newBalance:0}`; a non-EUR currency or fewer than one point is rejected before any lookup; a storage fault throws |
| LoyaltyService.CreditOrderFailsWhen | src/services/loyaltyService.ts:110-115 | the call throws exactly on a storage fault, or when the accepted order's email is new and its id is already a customer's Shopify id |
| LoyaltyService.CreditOrderSucceedsWhen | src/services/loyaltyService.ts:84-133 | the order is credited exactly when it is in EUR, worth at least one point, can be given a customer, and its fingerprint is not yet recorded |
| LoyaltyService.CreditOrderCredits | src/services/loyaltyService.ts:98-160 | on success, the customer is found or created with the order id as Shopify id, and its balance rises by exactly the points. One transaction is appended with that fingerprint and those points, `newBalance` and `transactionId` are the new values, and every other customer and transaction is unchanged |
| LoyaltyService.CreditOrderKeepsValid | src/services/loyaltyService.ts:122-150 | crediting keeps unique fingerprints and balances equal to the sum of their transactions |
| LoyaltyService.CreditRecordsOrder | src/services/loyaltyService.ts:145-150 | after a credit, the ledger holds the order's fingerprint for its customer |
| LoyaltyService.AlreadyCreditedIsRejected | src/services/loyaltyService.ts:122-133 | an order whose fingerprint is recorded is rejected and changes nothing, whether or not the call faults |
| LoyaltyService.CreditOrderKeepsHistory | src/services/loyaltyService.ts:72-168 | no call removes a customer, changes a Shopify id or alters an existing transaction |
| LoyaltyService.CreditOrderKeepsAlreadyCredited | src/services/loyaltyService.ts:72-168 | once credited, an order stays credited whatever is credited afterwards |
| LoyaltyService.ReplayIsRejected | src/services/loyaltyService.ts:122-133 | the same order delivered again after a credit is rejected, and the balance is unchanged |
| LoyaltyService.UnseenOrderIsCredited | src/services/loyaltyService.ts:120-133 | with an injective SHA-256, an accepted order whose id has no transaction yet is never mistaken for a duplicate |
| LoyaltyService.Ledger.constructor | src/config/database.ts:38-66 | the ledger starts empty and valid |
| LoyaltyService.Ledger.GetOrCreateCustomer | src/services/loyaltyService.ts:26-70 | the statement-by-statement method keeps the invariants and ends in the state and result given by `GetOrCreate` |
| LoyaltyService.Ledger.AddPointsToCustomer | src/services/loyaltyService.ts:72-168 | the statement-by-statement method, with its rollbacks, keeps the invariants and ends in the state and result given by `CreditOrder` |
| LoyaltyService.Ledger.GetCustomerBalance | src/services/loyaltyService.ts:170-188 | a failed query is rethrown, and nothing else fails; otherwise null exactly when the email is unknown, or else that customer's row, whose balance is the sum of its transactions and is non-negative |
| LoyaltyService.Ledger.GetAllCustomers | src/services/loyaltyService.ts:190-200 | a failed query is rethrown, and nothing else fails; otherwise every customer exactly once, newest first (descending id), each as stored |
| RedisConfig.DedupKey | src/config/redis.ts:55 | the key is the prefix `webhook:processed:` followed by the id |
| RedisConfig.DedupKeyInjective | src/config/redis.ts:47 | distinct ids have distinct dedup keys |
| RedisConfig.Live | src/config/redis.ts:56-57 | no contract: decides `EXISTS key` at an instant, meaning the key was set and its TTL has not run out. The TTL lemmas below state what marking does to it |
| RedisConfig.QueueKeyIsNotADedupKey | src/config/redis.ts:47-49 | `webhook:queue` is never a dedup key, so queue and dedup commands never touch each other's data |
| RedisConfig.Mark | src/config/redis.ts:65 | `SETEX` adds exactly the id's key |
| RedisConfig.NeverMarkedIsNotProcessed | src/config/redis.ts:51-58 | an id never marked is not processed |
| RedisConfig.MarkLastsForTtl | src/config/redis.ts:48-67 | a marked id reads as processed exactly until 86400 seconds after the mark |
| RedisConfig.MarkKeepsOtherIds | src/config/redis.ts:64 | marking one id never changes whether another id is processed |
| RedisConfig.RemarkRefreshes | src/config/redis.ts:65 | marking an id again only restarts its TTL |
| RedisConfig.QueueIsFifo | src/config/redis.ts:69-82 | over any interleaving of pushes and pops, the items popped followed by the items left are the initial queue followed by the items pushed, in order |
| RedisConfig.RedisStore.constructor | src/config/redis.ts:6 | no client yet, an empty queue and no keys |
| RedisConfig.RedisStore.InitializeRedis | src/config/redis.ts:8-38 | the client is assigned even when the connection is refused; a refusal is reported |
| RedisConfig.RedisStore.GetRedisClient | src/config/redis.ts:40-45 | "Redis client not initialized" exactly until the client is assigned |
| RedisConfig.RedisStore.IsWebhookProcessed | src/config/redis.ts:51-58 | not initialized, then command failure, come first; otherwise true exactly when the id's key is set and not expired |
| RedisConfig.RedisStore.MarkWebhookProcessed | src/config/redis.ts:60-67 | same error order; on success the id's key expires 86400 s from now; nothing else changes |
| RedisConfig.RedisStore.EnqueueWebhook | src/config/redis.ts:69-73 | same error order; on success the body is appended at the tail; nothing else changes |
| RedisConfig.RedisStore.DequeueWebhook | src/config/redis.ts:75-82 | same error order; the head is removed and returned; an empty queue returns null and stays empty |
| RedisConfig.RedisStore.GetQueueSize | src/config/redis.ts:84-87 | same error order; otherwise the number of queued payloads |
| WebhookWorker.Process | src/services/webhookWorker.ts:17-45 | no contract: computes what `processWebhook` does to the ledger and the dedup keys, and its result or error. IterationOnAPayload states its cases |
| WebhookWorker.Iterate | src/services/webhookWorker.ts:58-84 | no contract: computes one pass of the loop body over the ledger and the store. The lemmas below state what it does case by case and which invariants it keeps |
| WebhookWorker.IdleIterationChangesNothing | src/services/webhookWorker.ts:60-83 | an iteration on an empty queue, or whose dequeue throws, changes neither queue, dedup keys nor ledger |
| WebhookWorker.EmptyPayloadIsDropped | src/services/webhookWorker.ts:60-62 | an empty-string payload counts as nothing dequeued: it leaves the queue and is neither processed nor re-enqueued |
| WebhookWorker.IterationOnAPayload | src/services/webhookWorker.ts:17-75 | a payload is parsed, its order credited, and its id `sha256(payload)` marked whether or not the order was credited. It is processed exactly when parsing and crediting succeed and the mark works, and then it has left the queue. Otherwise it goes back to the tail, or is lost when that enqueue fails too |
| WebhookWorker.RequeueRotates | src/services/webhookWorker.ts:70-74 | a failed payload goes to the tail: the queue is rotated by one and keeps the same multiset of payloads |
| WebhookWorker.DedupKeysAreNotConsulted | src/services/webhookWorker.ts:17-45 | the worker never reads the dedup keys: ledger, queue and outcome are the same whatever keys are set |
| WebhookWorker.IterateKeepsValid | src/services/webhookWorker.ts:58-79 | an iteration keeps the ledger's invariants |
| WebhookWorker.IterateKeepsAlreadyCredited | src/services/webhookWorker.ts:58-79 | an iteration never un-credits an order |
| WebhookWorker.RetryDoesNotCreditAgain | src/services/webhookWorker.ts:28-40 | a body whose order is already credited, for instance one re-enqueued after its mark failed, leaves the ledger unchanged and credits nothing |
| WebhookWorker.Run | src/services/webhookWorker.ts:58-84 | no contract: computes the state after the loop has run through a sequence of iterations and `stopWorker` calls, stopping at the first stop. The three lemmas below state what a run promises |
| WebhookWorker.RunStopsOnlyWhenStopped | src/services/webhookWorker.ts:58-90 | the loop leaves exactly when `stopWorker` has been called, at a top-of-loop check |
| WebhookWorker.RunKeepsValid | src/services/webhookWorker.ts:58-84 | a whole run keeps at most one transaction per fingerprint and balances equal to their transactions, however often payloads are retried |
| WebhookWorker.RunKeepsAlreadyCredited | src/services/webhookWorker.ts:58-84 | once credited in a run, an order stays credited to the end of the run |
| WebhookWorker.Intake | src/index.ts:28-40 | no contract: computes the webhook route after the gate. It hashes the serialized order, answers "already processed" when its id is marked, and otherwise enqueues it. The next row states how it meets the worker |
| WebhookWorker.ProcessedPayloadIsRecognizedAtIntake | src/index.ts:28-40 | the id the worker marks is the id the intake checks: within the TTL, the same serialized order is answered "already processed" and not enqueued |
| WebhookWorker.Worker.IsWorkerActive | src/services/webhookWorker.ts:92-94 | reports the running flag |
| WebhookWorker.Worker.StopWorker | src/services/webhookWorker.ts:87-90 | clears the running flag |
| WebhookWorker.Worker.ProcessWebhook | src/services/webhookWorker.ts:17-45 | calls the ledger and the store and ends in the state and result given by `Process`, keeping the ledger's invariants |
| WebhookWorker.Worker.Step | src/services/webhookWorker.ts:59-83 | one loop body over the ledger and the store, ending in the state and outcome given by `Iterate` |
| WebhookWorker.Worker.HandleEvent | src/services/webhookWorker.ts:58-90 | a `stopWorker` call or one iteration, as given by `Handle` |
| WebhookWorker.Worker.StartWorker | src/services/webhookWorker.ts:47-85 | returns at once, changing nothing, when the flag is already set; otherwise sets it, and the loop ends in the state given by `Run` over the events it sees |
| HmacVerification.Utf8MatchesAscii | src/security/hmacVerification.ts:53-56 | the UTF-8 bytes of any string equal those of an ASCII string exactly when the strings are equal |
| HmacVerification.AsciiEncodedLength | src/security/hmacVerification.ts:55 | an ASCII string has one byte per character |
| HmacVerification.Utf8Encode | src/security/hmacVerification.ts:49-55 | UTF-8 encoding, as `Buffer.from` and `update(…, 'utf8')` do it, takes one to four bytes per character; Utf8MatchesAscii and AsciiEncodedLength give its content on ASCII text |
| HmacVerification.Base64Encode | src/security/hmacVerification.ts:50 | four characters per three bytes, rounded up, all ASCII |
| HmacVerification.Base64RoundTrip | src/security/hmacVerification.ts:50 | base64 decoding gives back the encoded bytes |
| HmacVerification.TimingSafeEqual | src/security/hmacVerification.ts:53-56 | throws exactly when the byte lengths differ, otherwise reports equality |
| HmacVerification.ExpectedSignature | src/security/hmacVerification.ts:47-50 | the base64 HMAC-SHA256 of the UTF-8 body under the UTF-8 secret is ASCII text, so it has one byte per character |
| HmacVerification.VerifyShopifyWebhook | src/security/hmacVerification.ts:8-78 | a missing or empty header gives 401 before the secret is looked at; a missing secret gives 500 before the body is looked at; a missing body gives 500. Every response is one of the five the gate can send, and a decision is either `next()` or one response |
| HmacVerification.Decide | src/security/hmacVerification.ts:53-78 | the last step of the gate: `next()` exactly when the comparison returns true, 500 exactly when it throws (the catch), and 401 "Invalid HMAC signature" exactly when it returns false |
| HmacVerification.AcceptsExactlyTheExpectedSignature | src/security/hmacVerification.ts:47-72 | `next()` is called exactly when header, secret and body are present and the header is the base64 HMAC-SHA256 of the body under the secret |
| HmacVerification.WrongSignatureOfRightLengthIsUnauthorized | src/security/hmacVerification.ts:57-68 | a wrong header of the digest's byte length gets 401 "Invalid HMAC signature" |
| HmacVerification.WrongLengthIsInternalError | src/security/hmacVerification.ts:53-78 | a header whose byte length differs from the digest's makes `timingSafeEqual` throw, and the catch answers 500, not 401 |
| HmacVerification.AsciiHeaderNot44LongIsInternalError | src/security/hmacVerification.ts:47-78 | with 32-byte digests the signature is 44 characters, so an ASCII header of any other length gets 500 |

## Left out

- Prices are integer cents, not the `total_price` string, so `parseFloat` and `Math.floor` on NaN, exponents or rounding are not modelled.
- Ids are mathematical integers. JavaScript's loss of precision above 2^53 is not reproduced.
- LoyaltyService.CreditOrder: customer and transaction ids are the next position in their tables, so a rolled-back insert gives its id back. PostgreSQL sequences do not give ids back.
- LoyaltyService.CreditOrder: the only database failures are the `shopify_id` unique constraint and a generic storage fault. Email and fingerprint collisions cannot arise in sequential calls; NOT NULL checks and column ranges are not modelled.
- LoyaltyService.Ledger.GetAllCustomers: `ORDER BY created_at DESC` is modelled as descending id, since ids follow creation order. Ties between equal timestamps are not modelled.
- Concurrency is not modelled. Each database call is one atomic step, which is what serializable isolation provides; async interleavings between the worker and the HTTP routes are not modelled.
- SHA-256 and HMAC-SHA256 are parameters, not implementations. Only their injectivity (assumed where a lemma needs it) and the 32-byte digest length are used.
- `JSON.parse` and the reading of the order's fields are one parameter, `parseOrder`. `JSON.stringify` is not modelled: the intake takes the serialized body as its input.
- Time is an abstract instant. An expired key stays in the `expiry` map but no longer counts as set. The worker's polling sleep is not modelled.
- RedisConfig.RedisStore.InitializeRedis: connection options, the reconnect strategy and event logging are not modelled; only whether `connect()` succeeds is.
- A failed Redis or database command is assumed to apply nothing. Partial effects on the server are not modelled.
- WebhookWorker.Worker.Step: the queue size read when nothing is dequeued is discarded, as in the source, and only whether that read failed is kept.
- WebhookWorker.Worker.StartWorker: the loop runs through a finite sequence of events (iterations and `stopWorker` calls), not forever.
- Header lookup is not modelled: the header is an optional string. Case-insensitive name matching is out, and so is Node's joining of a repeated header into one comma-separated string; the gate would treat such a joined string like any other header.
- Dafny strings hold Unicode scalar values. UTF-16 lone surrogates, which `Buffer.from` replaces, are not modelled.
- Logging, Express routing, the balance and listing routes, the health route, startup, SIGTERM handling and the schema DDL in src/config/database.ts are not modelled. The DDL is used only for the unique constraints.
