/** The Redis side of the pipeline: a FIFO list of serialized orders
    (`JSON.stringify(req.body)`) under one key, and one expiring key per
    processed webhook id. The server is modelled
    as plain state (a list and a map from key to expiry instant); the module's
    client variable becomes the `initialized` flag that every command checks
    first. A failed command (`fault`) changes nothing and reports `CommandFailed`. */
module RedisConfig {
  import opened Results

  const WEBHOOK_DEDUP_KEY: string := "webhook:processed:"
  /** Seconds a processed-webhook key lives. */
  const WEBHOOK_DEDUP_TTL: int := 86400
  const WEBHOOK_QUEUE_KEY: string := "webhook:queue"

  datatype RedisError =
    | ClientNotInitialized  // "Redis client not initialized"
    | ConnectionFailed      // `connect()` rejected
    | CommandFailed         // the server or the connection failed the command

  // ---------------------------------------------------------------------------
  // Keys

  /** The key under which webhook `webhookId` is recorded as processed. */
  function DedupKey(webhookId: string): (key: string)
    ensures |key| == |WEBHOOK_DEDUP_KEY| + |webhookId|
    ensures key[..|WEBHOOK_DEDUP_KEY|] == WEBHOOK_DEDUP_KEY && key[|WEBHOOK_DEDUP_KEY|..] == webhookId
  {
    WEBHOOK_DEDUP_KEY + webhookId
  }

  /** Distinct webhook ids never share a dedup key. */
  lemma DedupKeyInjective(a: string, b: string)
    requires DedupKey(a) == DedupKey(b)
    ensures a == b
  {
    calc {
      a;
      DedupKey(a)[|WEBHOOK_DEDUP_KEY|..];
      DedupKey(b)[|WEBHOOK_DEDUP_KEY|..];
      b;
    }
  }

  /** The queue's key is not the dedup key of any id: list commands and
      dedup commands never touch each other's data. */
  lemma QueueKeyIsNotADedupKey(webhookId: string)
    ensures DedupKey(webhookId) != WEBHOOK_QUEUE_KEY
  {
    assert DedupKey(webhookId)[8] == 'p' != 'q' == WEBHOOK_QUEUE_KEY[8];
  }

  // ---------------------------------------------------------------------------
  // The dedup keys: `SETEX key 86400 "1"` and `EXISTS key`

  /** `EXISTS key` at instant `now`: the key was set and its TTL has not run out. */
  predicate Live(expiry: map<string, int>, key: string, now: int) {
    key in expiry && now < expiry[key]
  }

  /** `SETEX webhook:processed:<id> 86400 "1"` issued at instant `now`. */
  function Mark(expiry: map<string, int>, webhookId: string, now: int): (e: map<string, int>)
    ensures e.Keys == expiry.Keys + {DedupKey(webhookId)}
  {
    expiry[DedupKey(webhookId) := now + WEBHOOK_DEDUP_TTL]
  }

  /** An id never marked is not processed. */
  lemma NeverMarkedIsNotProcessed(expiry: map<string, int>, webhookId: string, now: int)
    requires DedupKey(webhookId) !in expiry
    ensures !Live(expiry, DedupKey(webhookId), now)
  {
  }

  /** A marked id reads as processed for exactly the TTL that follows the mark. */
  lemma MarkLastsForTtl(expiry: map<string, int>, webhookId: string, now: int, later: int)
    requires now <= later
    ensures Live(Mark(expiry, webhookId, now), DedupKey(webhookId), later) <==> later < now + WEBHOOK_DEDUP_TTL
  {
  }

  /** Marking one id leaves whether any other id is processed as it was, at every instant. */
  lemma MarkKeepsOtherIds(expiry: map<string, int>, webhookId: string, other: string, now: int, later: int)
    requires other != webhookId
    ensures Live(Mark(expiry, webhookId, now), DedupKey(other), later) <==> Live(expiry, DedupKey(other), later)
  {
    if DedupKey(other) == DedupKey(webhookId) {
      DedupKeyInjective(other, webhookId);
    }
  }

  /** Marking an id again only restarts its TTL. */
  lemma RemarkRefreshes(expiry: map<string, int>, webhookId: string, first: int, second: int)
    ensures Mark(Mark(expiry, webhookId, first), webhookId, second) == Mark(expiry, webhookId, second)
  {
  }

  // ---------------------------------------------------------------------------
  // The queue: `RPUSH webhook:queue data` and `LPOP webhook:queue`

  /** A command on the queue, in the order a sequence of clients issues them. */
  datatype QueueOp = Push(item: string) | Pop

  /** The queue after `ops` and the items the pops returned, in order; a pop on
      an empty queue returns null and returns no item. */
  function RunQueue(queue: seq<string>, ops: seq<QueueOp>): (r: (seq<string>, seq<string>))
    decreases |ops|
  {
    if ops == [] then (queue, [])
    else
      var (q, popped) := RunQueue(queue, ops[..|ops| - 1]);
      match ops[|ops| - 1]
      case Push(item) => (q + [item], popped)
      case Pop => if q == [] then (q, popped) else (q[1..], popped + [q[0]])
  }

  /** The items pushed by `ops`, in order. */
  function Pushed(ops: seq<QueueOp>): (items: seq<string>)
    ensures |items| <= |ops|
    decreases |ops|
  {
    if ops == [] then []
    else Pushed(ops[..|ops| - 1]) + (if ops[|ops| - 1].Push? then [ops[|ops| - 1].item] else [])
  }

  /** First in, first out: whatever the interleaving of pushes and pops, the items
      popped followed by those still queued are the initial queue followed by the
      pushed items, in order. Nothing is lost, duplicated or reordered. */
  lemma {:induction false} QueueIsFifo(queue: seq<string>, ops: seq<QueueOp>)
    ensures RunQueue(queue, ops).1 + RunQueue(queue, ops).0 == queue + Pushed(ops)
    decreases |ops|
  {
    if ops != [] {
      var init := ops[..|ops| - 1];
      QueueIsFifo(queue, init);
      var (q, popped) := RunQueue(queue, init);
      match ops[|ops| - 1]
      case Push(item) =>
        assert popped + (q + [item]) == (popped + q) + [item];
      case Pop =>
        if q != [] {
          assert (popped + [q[0]]) + q[1..] == popped + q;
        }
    }
  }

  // ---------------------------------------------------------------------------
  // The client module

  /** The Redis client variable of the module and the server's data it reaches. */
  class RedisStore {
    /** Whether `initializeRedis` has assigned the client. */
    var initialized: bool
    /** The list under `webhook:queue`, head first. */
    var queue: seq<string>
    /** The expiry instant of every key set with SETEX. */
    var expiry: map<string, int>

    constructor ()
      ensures !initialized && queue == [] && expiry == map[]
    {
      initialized, queue, expiry := false, [], map[];
    }

    /** `initializeRedis()`: the client is assigned before connecting, so it stays
        assigned even when the connection is refused. */
    method InitializeRedis(connects: bool) returns (r: Outcome<RedisError>)
      modifies this
      ensures initialized && queue == old(queue) && expiry == old(expiry)
      ensures r == if connects then Pass else Fail(ConnectionFailed)
    {
      initialized := true;
      if !connects {
        return Fail(ConnectionFailed);
      }
      return Pass;
    }

    /** `getRedisClient()`: throws until the client has been assigned. */
    function GetRedisClient(): (r: Outcome<RedisError>)
      reads this
      ensures r.Pass? <==> initialized
      ensures r.Fail? ==> r.error == ClientNotInitialized
    {
      if !initialized then Fail(ClientNotInitialized) else Pass
    }

    /** `isWebhookProcessed(webhookId)` at instant `now`. */
    method IsWebhookProcessed(webhookId: string, now: int, fault: bool) returns (r: Result<bool, RedisError>)
      ensures !initialized ==> r == Err(ClientNotInitialized)
      ensures initialized && fault ==> r == Err(CommandFailed)
      ensures initialized && !fault ==> r == Ok(Live(expiry, DedupKey(webhookId), now))
    {
      if !initialized {
        return Err(ClientNotInitialized);
      }
      if fault {
        return Err(CommandFailed);
      }
      var key := DedupKey(webhookId);
      return Ok(key in expiry && now < expiry[key]);
    }

    /** `markWebhookProcessed(webhookId)` at instant `now`. */
    method MarkWebhookProcessed(webhookId: string, now: int, fault: bool) returns (r: Outcome<RedisError>)
      modifies this
      ensures initialized == old(initialized) && queue == old(queue)
      ensures r == if !initialized then Fail(ClientNotInitialized) else if fault then Fail(CommandFailed) else Pass
      ensures expiry == if r.Pass? then Mark(old(expiry), webhookId, now) else old(expiry)
    {
      if !initialized {
        return Fail(ClientNotInitialized);
      }
      if fault {
        return Fail(CommandFailed);
      }
      expiry := expiry[DedupKey(webhookId) := now + WEBHOOK_DEDUP_TTL];
      return Pass;
    }

    /** `enqueueWebhook(webhookData)`: RPUSH at the tail. */
    method EnqueueWebhook(webhookData: string, fault: bool) returns (r: Outcome<RedisError>)
      modifies this
      ensures initialized == old(initialized) && expiry == old(expiry)
      ensures r == if !initialized then Fail(ClientNotInitialized) else if fault then Fail(CommandFailed) else Pass
      ensures queue == if r.Pass? then old(queue) + [webhookData] else old(queue)
    {
      if !initialized {
        return Fail(ClientNotInitialized);
      }
      if fault {
        return Fail(CommandFailed);
      }
      queue := queue + [webhookData];
      return Pass;
    }

    /** `dequeueWebhook()`: LPOP at the head; null on an empty queue. */
    method DequeueWebhook(fault: bool) returns (r: Result<Option<string>, RedisError>)
      modifies this
      ensures initialized == old(initialized) && expiry == old(expiry)
      ensures !initialized ==> r == Err(ClientNotInitialized)
      ensures initialized && fault ==> r == Err(CommandFailed)
      ensures r.Err? ==> queue == old(queue)
      ensures r.Ok? && old(queue) == [] ==> r.value == None && queue == []
      ensures r.Ok? && old(queue) != [] ==> r.value == Some(old(queue)[0]) && queue == old(queue)[1..]
      ensures initialized && !fault ==> r.Ok?
    {
      if !initialized {
        return Err(ClientNotInitialized);
      }
      if fault {
        return Err(CommandFailed);
      }
      if queue == [] {
        return Ok(None);
      }
      var data := queue[0];
      queue := queue[1..];
      return Ok(Some(data));
    }

    /** `getQueueSize()`: LLEN. */
    method GetQueueSize(fault: bool) returns (r: Result<nat, RedisError>)
      ensures !initialized ==> r == Err(ClientNotInitialized)
      ensures initialized && fault ==> r == Err(CommandFailed)
      ensures initialized && !fault ==> r == Ok(|queue|)
    {
      if !initialized {
        return Err(ClientNotInitialized);
      }
      if fault {
        return Err(CommandFailed);
      }
      return Ok(|queue|);
    }
  }
}
