/** The background worker: a loop that pops serialized orders (the
    `JSON.stringify(req.body)` the intake enqueued) from the Redis queue,
    credits the order each one carries, and marks the payload's id as
    processed. Each loop iteration is one `Step`; the pure function `Iterate`
    gives its effect on the composed state (`Pipeline`), and the lemmas below
    state what an iteration and a whole run promise. */
module WebhookWorker {
  import opened Results
  import opened LoyaltyService
  import opened RedisConfig

  /** Which of the external calls of one iteration fail. */
  datatype Faults = Faults(dequeue: bool, ledger: bool, mark: bool, requeue: bool, queueSize: bool)

  /** Everything an iteration reads or writes: the ledger's tables and the Redis state. */
  datatype Pipeline = Pipeline(tables: Tables, initialized: bool, queue: seq<string>, expiry: map<string, int>)

  /** Why `processWebhook` threw. */
  datatype WorkerError =
    | ParseFailed                         // JSON.parse rejected the payload
    | LedgerFailed(dbError: DbError)      // addPointsToCustomer threw
    | MarkFailed(redisError: RedisError)  // markWebhookProcessed threw

  /** How one iteration of the loop ended. */
  datatype StepOutcome =
    | LoopError                          // dequeueWebhook threw; the loop pauses
    | NothingDequeued(sizeFailed: bool)  // null or an empty string came back
    | Processed(credited: bool)          // processed and marked; `credited` is the ledger's `success`
    | Requeued(cause: WorkerError)       // processing threw and the payload went back to the tail
    | RequeueLost(cause: WorkerError)    // processing threw and so did the re-enqueue

  // ---------------------------------------------------------------------------
  // One iteration as a function of the state

  /** `processWebhook(webhookData, webhookId)`: parse, credit, then mark the id
      processed whatever the ledger answered. */
  function Process(s: Pipeline, h: string -> string, parse: string -> Option<Order>,
                   webhookData: string, webhookId: string, now: int, f: Faults): (r: (Pipeline, Result<bool, WorkerError>))
  {
    match parse(webhookData)
    case None => (s, Err(ParseFailed))
    case Some(order) =>
      var (t, res) := CreditOrder(s.tables, h, order, f.ledger);
      if res.Err? then (s.(tables := t), Err(LedgerFailed(res.error)))
      else if !s.initialized then (s.(tables := t), Err(MarkFailed(ClientNotInitialized)))
      else if f.mark then (s.(tables := t), Err(MarkFailed(CommandFailed)))
      else (s.(tables := t, expiry := Mark(s.expiry, webhookId, now)), Ok(res.value.success))
  }

  /** One pass through the `while (isWorkerRunning)` loop; the id
      of a payload is the SHA-256 of the payload itself. */
  function Iterate(s: Pipeline, h: string -> string, parse: string -> Option<Order>, now: int, f: Faults): (r: (Pipeline, StepOutcome))
  {
    if !s.initialized then (s, LoopError)
    else if f.dequeue then (s, LoopError)
    else if s.queue == [] then (s, NothingDequeued(f.queueSize))
    else
      var data := s.queue[0];
      var s1 := s.(queue := s.queue[1..]);
      if data == "" then (s1, NothingDequeued(f.queueSize))
      else
        var (s2, res) := Process(s1, h, parse, data, h(data), now, f);
        if res.Ok? then (s2, Processed(res.value))
        else if f.requeue then (s2, RequeueLost(res.error))
        else (s2.(queue := s2.queue + [data]), Requeued(res.error))
  }

  /** An iteration that finds the queue empty, or cannot reach Redis, changes nothing. */
  lemma IdleIterationChangesNothing(s: Pipeline, h: string -> string, parse: string -> Option<Order>, now: int, f: Faults)
    requires s.queue == [] || !s.initialized || f.dequeue
    ensures Iterate(s, h, parse, now, f).0 == s
    ensures Iterate(s, h, parse, now, f).1.LoopError? || Iterate(s, h, parse, now, f).1.NothingDequeued?
  {
  }

  /** An empty-string payload is dropped: it leaves the queue and nothing else happens. */
  lemma EmptyPayloadIsDropped(s: Pipeline, h: string -> string, parse: string -> Option<Order>, now: int, f: Faults)
    requires s.initialized && !f.dequeue && s.queue != [] && s.queue[0] == ""
    ensures Iterate(s, h, parse, now, f) == (s.(queue := s.queue[1..]), NothingDequeued(f.queueSize))
  {
  }

  /** What an iteration that takes a non-empty payload does, case by case: the
      ledger sees at most the one credit of the parsed order; a processed payload
      has left the queue and its id is marked whether or not the order was
      credited; a failed one is rotated to the tail (or lost when that fails too). */
  lemma IterationOnAPayload(s: Pipeline, h: string -> string, parse: string -> Option<Order>, now: int, f: Faults)
    requires s.initialized && !f.dequeue && s.queue != [] && s.queue[0] != ""
    ensures var data := s.queue[0];
      var (s', out) := Iterate(s, h, parse, now, f);
      && s'.initialized
      && (parse(data).None? ==> s'.tables == s.tables && s'.expiry == s.expiry && out.cause == ParseFailed)
      && (parse(data).Some? ==> s'.tables == CreditOrder(s.tables, h, parse(data).value, f.ledger).0)
      && (out.Processed? <==> parse(data).Some? && CreditOrder(s.tables, h, parse(data).value, f.ledger).1.Ok? && !f.mark)
      && (out.Processed? ==>
            && out.credited == CreditOrder(s.tables, h, parse(data).value, f.ledger).1.value.success
            && s'.queue == s.queue[1..]
            && s'.expiry == Mark(s.expiry, h(data), now))
      && (out.Requeued? ==> s'.queue == s.queue[1..] + [data] && s'.expiry == s.expiry && !f.requeue)
      && (out.RequeueLost? ==> s'.queue == s.queue[1..] && s'.expiry == s.expiry && f.requeue)
      && (out.Processed? || out.Requeued? || out.RequeueLost?)
  {
  }

  /** A failed payload is neither lost nor duplicated when the re-enqueue works:
      the queue holds the same items, rotated by one. */
  lemma RequeueRotates(s: Pipeline, h: string -> string, parse: string -> Option<Order>, now: int, f: Faults)
    requires Iterate(s, h, parse, now, f).1.Requeued?
    ensures s.queue != []
    ensures Iterate(s, h, parse, now, f).0.queue == s.queue[1..] + [s.queue[0]]
    ensures multiset(Iterate(s, h, parse, now, f).0.queue) == multiset(s.queue)
  {
    IterationOnAPayload(s, h, parse, now, f);
    assert s.queue == [s.queue[0]] + s.queue[1..];
  }

  /** The worker never reads the dedup keys: what an iteration does to the
      ledger and the queue, and how it ends, is the same whatever keys are set. */
  lemma DedupKeysAreNotConsulted(s: Pipeline, expiry: map<string, int>, h: string -> string, parse: string -> Option<Order>, now: int, f: Faults)
    ensures var a := Iterate(s, h, parse, now, f);
      var b := Iterate(s.(expiry := expiry), h, parse, now, f);
      a.0.tables == b.0.tables && a.0.queue == b.0.queue && a.1 == b.1
  {
  }

  /** An iteration keeps the ledger's invariants. */
  lemma IterateKeepsValid(s: Pipeline, h: string -> string, parse: string -> Option<Order>, now: int, f: Faults)
    requires TablesValid(s.tables, h)
    ensures TablesValid(Iterate(s, h, parse, now, f).0.tables, h)
  {
    if s.initialized && !f.dequeue && s.queue != [] && s.queue[0] != "" {
      IterationOnAPayload(s, h, parse, now, f);
      var data := s.queue[0];
      if parse(data).Some? {
        CreditOrderKeepsValid(s.tables, h, parse(data).value, f.ledger);
      }
    }
  }

  /** An iteration never un-credits an order. */
  lemma IterateKeepsAlreadyCredited(s: Pipeline, h: string -> string, parse: string -> Option<Order>, now: int, f: Faults, order: Order)
    requires AlreadyCredited(s.tables, h, order)
    ensures AlreadyCredited(Iterate(s, h, parse, now, f).0.tables, h, order)
  {
    if s.initialized && !f.dequeue && s.queue != [] && s.queue[0] != "" {
      IterationOnAPayload(s, h, parse, now, f);
      var data := s.queue[0];
      if parse(data).Some? {
        CreditOrderKeepsAlreadyCredited(s.tables, h, order, parse(data).value, f.ledger);
      }
    }
  }

  /** A payload whose order is already credited, say one re-enqueued after its
      mark failed, is stopped by the ledger's fingerprint check: the tables do
      not change and no credit is reported. */
  lemma RetryDoesNotCreditAgain(s: Pipeline, h: string -> string, parse: string -> Option<Order>, now: int, f: Faults)
    requires s.queue != [] && parse(s.queue[0]).Some? && AlreadyCredited(s.tables, h, parse(s.queue[0]).value)
    ensures Iterate(s, h, parse, now, f).0.tables == s.tables
    ensures Iterate(s, h, parse, now, f).1 != Processed(true)
  {
    AlreadyCreditedIsRejected(s.tables, h, parse(s.queue[0]).value, f.ledger);
    if s.initialized && !f.dequeue && s.queue[0] != "" {
      IterationOnAPayload(s, h, parse, now, f);
    }
  }

  // ---------------------------------------------------------------------------
  // The loop

  /** What can happen between two top-of-loop checks: an iteration at instant
      `now` with the given failures, or a `stopWorker()` call. */
  datatype Event = Tick(now: int, faults: Faults) | Stop

  /** One event at the top of the loop: the state after it, and whether the
      loop goes on. */
  function Handle(s: Pipeline, h: string -> string, parse: string -> Option<Order>, e: Event): (r: (Pipeline, bool))
  {
    match e
    case Stop => (s, false)
    case Tick(now, f) => (Iterate(s, h, parse, now, f).0, true)
  }

  /** The state after the loop has run through `events`, and whether it is
      still running (it leaves at the first `Stop`). */
  function Run(s: Pipeline, h: string -> string, parse: string -> Option<Order>, events: seq<Event>): (r: (Pipeline, bool))
    decreases |events|
  {
    if events == [] then (s, true)
    else
      var (s', running) := Handle(s, h, parse, events[0]);
      if running then Run(s', h, parse, events[1..]) else (s', false)
  }

  /** One more event of a run, taken from the front of what is left. */
  lemma RunUnfolds(s: Pipeline, h: string -> string, parse: string -> Option<Order>, events: seq<Event>, i: nat)
    requires i < |events|
    ensures var (s', running) := Handle(s, h, parse, events[i]);
      Run(s, h, parse, events[i..]) == if running then Run(s', h, parse, events[i + 1..]) else (s', false)
  {
    assert events[i..][0] == events[i] && events[i..][1..] == events[i + 1..];
  }

  /** The loop stops exactly when a `stopWorker()` call came. */
  lemma {:induction false} RunStopsOnlyWhenStopped(s: Pipeline, h: string -> string, parse: string -> Option<Order>, events: seq<Event>)
    ensures !Run(s, h, parse, events).1 <==> exists i :: 0 <= i < |events| && events[i].Stop?
    decreases |events|
  {
    if events != [] && events[0].Tick? {
      var now, f := events[0].now, events[0].faults;
      RunStopsOnlyWhenStopped(Iterate(s, h, parse, now, f).0, h, parse, events[1..]);
      if exists i :: 0 <= i < |events| && events[i].Stop? {
        var i :| 0 <= i < |events| && events[i].Stop?;
        assert events[1..][i - 1].Stop?;
      }
      if exists i :: 0 <= i < |events[1..]| && events[1..][i].Stop? {
        var i :| 0 <= i < |events[1..]| && events[1..][i].Stop?;
        assert events[i + 1].Stop?;
      }
    }
  }

  /** A run keeps the ledger's invariants: in particular, at most one
      transaction per fingerprint however often a payload is retried. */
  lemma {:induction false} RunKeepsValid(s: Pipeline, h: string -> string, parse: string -> Option<Order>, events: seq<Event>)
    requires TablesValid(s.tables, h)
    ensures TablesValid(Run(s, h, parse, events).0.tables, h)
    decreases |events|
  {
    if events != [] && events[0].Tick? {
      var now, f := events[0].now, events[0].faults;
      IterateKeepsValid(s, h, parse, now, f);
      RunKeepsValid(Iterate(s, h, parse, now, f).0, h, parse, events[1..]);
    }
  }

  /** Once credited, an order stays credited for the rest of the run, so no
      later delivery of it is credited again. */
  lemma {:induction false} RunKeepsAlreadyCredited(s: Pipeline, h: string -> string, parse: string -> Option<Order>, events: seq<Event>, order: Order)
    requires AlreadyCredited(s.tables, h, order)
    ensures AlreadyCredited(Run(s, h, parse, events).0.tables, h, order)
    decreases |events|
  {
    if events != [] && events[0].Tick? {
      var now, f := events[0].now, events[0].faults;
      IterateKeepsAlreadyCredited(s, h, parse, now, f, order);
      RunKeepsAlreadyCredited(Iterate(s, h, parse, now, f).0, h, parse, events[1..], order);
    }
  }

  // ---------------------------------------------------------------------------
  // Intake (the HTTP handler in front of the queue)

  datatype IntakeReply = AlreadyProcessed(id: string) | Queued(id: string)

  /** The webhook route after the signature check: hash the serialized order,
      answer "already processed" when its id is marked, else enqueue the serialized order. */
  function Intake(s: Pipeline, h: string -> string, payload: string, now: int, checkFault: bool, enqueueFault: bool): (r: (Pipeline, Result<IntakeReply, RedisError>))
  {
    var webhookId := h(payload);
    if !s.initialized then (s, Err(ClientNotInitialized))
    else if checkFault then (s, Err(CommandFailed))
    else if Live(s.expiry, DedupKey(webhookId), now) then (s, Ok(AlreadyProcessed(webhookId)))
    else if enqueueFault then (s, Err(CommandFailed))
    else (s.(queue := s.queue + [payload]), Ok(Queued(webhookId)))
  }

  /** The id the worker marks is the id the intake checks, because both hash
      the same enqueued string: once a payload is processed, the same payload is
      turned away at intake for the TTL that follows. */
  lemma ProcessedPayloadIsRecognizedAtIntake(s: Pipeline, h: string -> string, parse: string -> Option<Order>, now: int, f: Faults, later: int)
    requires Iterate(s, h, parse, now, f).1.Processed?
    requires now <= later < now + WEBHOOK_DEDUP_TTL
    ensures s.queue != []
    ensures var s' := Iterate(s, h, parse, now, f).0;
      Intake(s', h, s.queue[0], later, false, false) == (s', Ok(AlreadyProcessed(h(s.queue[0]))))
  {
    IterationOnAPayload(s, h, parse, now, f);
    MarkLastsForTtl(s.expiry, h(s.queue[0]), now, later);
  }

  // ---------------------------------------------------------------------------
  // The worker module

  /** The worker's running flag and the services it drives. */
  class Worker {
    var isWorkerRunning: bool
    const ledger: Ledger
    const redis: RedisStore
    /** `JSON.parse` followed by reading the order's fields; `None` when it throws. */
    const parseOrder: string -> Option<Order>

    ghost predicate Valid()
      reads this, ledger
    {
      ledger.Valid()
    }

    function State(): Pipeline
      reads ledger, redis
    {
      Pipeline(ledger.tables, redis.initialized, redis.queue, redis.expiry)
    }

    constructor (ledger: Ledger, redis: RedisStore, parseOrder: string -> Option<Order>)
      requires ledger.Valid()
      ensures Valid() && !isWorkerRunning
      ensures this.ledger == ledger && this.redis == redis && this.parseOrder == parseOrder
    {
      isWorkerRunning := false;
      this.ledger := ledger;
      this.redis := redis;
      this.parseOrder := parseOrder;
    }

    /** `isWorkerActive()`. */
    function IsWorkerActive(): (r: bool)
      reads this
      ensures r <==> isWorkerRunning
    {
      isWorkerRunning
    }

    /** `stopWorker()`: the loop notices at its next top-of-loop check. */
    method StopWorker()
      modifies this
      ensures !isWorkerRunning
    {
      isWorkerRunning := false;
    }

    /** `processWebhook(webhookData, webhookId)` at instant `now`. */
    method ProcessWebhook(webhookData: string, webhookId: string, now: int, f: Faults) returns (r: Result<bool, WorkerError>)
      requires Valid()
      modifies ledger, redis
      ensures Valid()
      ensures (State(), r) == Process(old(State()), ledger.sha256Hex, parseOrder, webhookData, webhookId, now, f)
    {
      var parsed := parseOrder(webhookData);
      if parsed.None? {
        return Err(ParseFailed);
      }
      var result := ledger.AddPointsToCustomer(parsed.value, f.ledger);
      if result.Err? {
        return Err(LedgerFailed(result.error));
      }
      var marked := redis.MarkWebhookProcessed(webhookId, now, f.mark);
      if marked.Fail? {
        return Err(MarkFailed(marked.error));
      }
      return Ok(result.value.success);
    }

    /** One iteration of the `while (isWorkerRunning)` loop at instant `now`. */
    method Step(now: int, f: Faults) returns (r: StepOutcome)
      requires Valid()
      modifies ledger, redis
      ensures Valid()
      ensures (State(), r) == Iterate(old(State()), ledger.sha256Hex, parseOrder, now, f)
    {
      var dequeued := redis.DequeueWebhook(f.dequeue);
      if dequeued.Err? {
        // caught by the outer handler, which pauses for the polling interval
        return LoopError;
      }
      if dequeued.value.None? || dequeued.value.value == "" {
        var size := redis.GetQueueSize(f.queueSize);
        return NothingDequeued(size.Err?);
      }
      var webhookData := dequeued.value.value;
      var webhookId := ledger.sha256Hex(webhookData);
      var processed := ProcessWebhook(webhookData, webhookId, now, f);
      if processed.Ok? {
        return Processed(processed.value);
      }
      var requeued := redis.EnqueueWebhook(webhookData, f.requeue);
      if requeued.Fail? {
        // the re-enqueue error reaches the outer handler; the payload is gone
        return RequeueLost(processed.error);
      }
      return Requeued(processed.error);
    }

    /** What happens between two top-of-loop checks: a `stopWorker()` call or one iteration. */
    method HandleEvent(e: Event)
      requires Valid() && isWorkerRunning
      modifies this, ledger, redis
      ensures Valid()
      ensures (State(), isWorkerRunning) == Handle(old(State()), ledger.sha256Hex, parseOrder, e)
    {
      match e
      case Stop =>
        StopWorker();
      case Tick(now, f) =>
        var _ := Step(now, f);
    }

    /** `startWorker()`: returns at once when the loop is already running;
        otherwise sets the flag and runs the loop through `events`, checking
        the flag before every iteration. */
    method StartWorker(events: seq<Event>) returns (started: bool)
      requires Valid()
      modifies this, ledger, redis
      ensures Valid()
      ensures started <==> !old(isWorkerRunning)
      ensures !started ==> isWorkerRunning && State() == old(State())
      ensures started ==> (State(), isWorkerRunning) == Run(old(State()), ledger.sha256Hex, parseOrder, events)
    {
      if isWorkerRunning {
        return false;
      }
      isWorkerRunning := true;
      var i := 0;
      while i < |events| && isWorkerRunning
        invariant 0 <= i <= |events|
        invariant Valid()
        invariant isWorkerRunning ==>
          Run(old(State()), ledger.sha256Hex, parseOrder, events) == Run(State(), ledger.sha256Hex, parseOrder, events[i..])
        invariant !isWorkerRunning ==>
          Run(old(State()), ledger.sha256Hex, parseOrder, events) == (State(), false)
        decreases |events| - i
      {
        RunUnfolds(State(), ledger.sha256Hex, parseOrder, events, i);
        HandleEvent(events[i]);
        i := i + 1;
      }
      return true;
    }
  }
}
