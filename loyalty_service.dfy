/** The loyalty ledger (src/services/loyaltyService.ts).

    The two tables `customers` and `transactions` are held as `Tables`. Each
    call of the service runs inside one serializable database transaction, so
    it is modelled as one atomic step: the pure functions `GetOrCreate` and
    `CreditOrder` give the step's effect on `Tables`, and the class `Ledger`
    performs the same statements one after another (select, insert, update,
    rollback) and is proved to have exactly that effect. */
module LoyaltyService {
  import opened Results

  /** An "order created" event as the worker parses it. `total_price` is a
      decimal string with two fractional digits; here it is held in cents. */
  datatype Order = Order(id: int, email: string, totalCents: int, currency: string)

  /** A row of `customers`. */
  datatype Customer = Customer(id: nat, email: string, shopifyId: int, pointsBalance: int)

  /** A row of `transactions`. */
  datatype Transaction = Transaction(
    id: nat,
    customerId: nat,
    orderId: int,
    amountCents: int,
    pointsAdded: int,
    transactionHash: string)

  /** The database. `customers` is keyed by the unique email; `created` lists
      the emails in creation order (the customer at position i has the serial
      id i + 1); the transaction at position i has the serial id i + 1. */
  datatype Tables = Tables(
    customers: map<string, Customer>,
    created: seq<string>,
    transactions: seq<Transaction>)

  /** `{ success, newBalance, transactionId? }` */
  datatype CreditResult = CreditResult(success: bool, newBalance: int, transactionId: Option<nat>)

  /** An error raised by the database: a unique constraint, or any other failure. */
  datatype DbError = UniqueViolation(constraint: string) | StorageFailure

  const ACCEPTED_CURRENCY: string := "EUR"
  const SHOPIFY_ID_CONSTRAINT: string := "customers_shopify_id_key"
  const EmptyTables: Tables := Tables(map[], [], [])

  /** `{ success: false, newBalance: 0 }`, returned for every rejected order. */
  function NotCredited(): CreditResult {
    CreditResult(false, 0, None)
  }

  /** `Math.floor(parseFloat(total_price))` for a price given in cents. */
  function PointsFromCents(cents: int): (points: int)
    ensures points * 100 <= cents < points * 100 + 100
  {
    cents / 100
  }

  // ---------------------------------------------------------------------------
  // The transaction fingerprint

  predicate IsDigit(c: char) {
    '0' <= c <= '9'
  }

  function DigitChar(d: nat): (c: char)
    requires d < 10
    ensures IsDigit(c) && c as int - 48 == d
  {
    (d + 48) as char
  }

  /** The decimal notation of a natural number, without leading zeros. */
  function NatToDecimal(n: nat): (s: string)
    ensures |s| >= 1
    decreases n
  {
    if n < 10 then [DigitChar(n)] else NatToDecimal(n / 10) + [DigitChar(n % 10)]
  }

  lemma {:induction false} NatToDecimalDigits(n: nat)
    ensures forall i :: 0 <= i < |NatToDecimal(n)| ==> IsDigit(NatToDecimal(n)[i])
    decreases n
  {
    if n >= 10 {
      NatToDecimalDigits(n / 10);
    }
  }

  /** The decimal notation of an integer, as JavaScript's template strings print it. */
  function IntToDecimal(n: int): (s: string)
    ensures |s| >= 1
  {
    if n < 0 then "-" + NatToDecimal(-n) else NatToDecimal(n)
  }

  /** Only the first character of a decimal notation can be a minus sign, and it is one exactly for a negative number. */
  lemma IntToDecimalSign(n: int)
    ensures IntToDecimal(n)[0] == '-' <==> n < 0
    ensures forall i :: 1 <= i < |IntToDecimal(n)| ==> IntToDecimal(n)[i] != '-'
  {
    NatToDecimalDigits(if n < 0 then -n else n);
  }

  /** The value of a string of decimal digits (reference inverse of `NatToDecimal`). */
  function DecimalValue(s: string): nat
  {
    if s == [] then 0
    else
      var c := s[|s| - 1];
      DecimalValue(s[..|s| - 1]) * 10 + (if IsDigit(c) then c as int - 48 else 0)
  }

  /** Reference inverse of `IntToDecimal`. */
  function ParseInt(s: string): int
  {
    if |s| > 0 && s[0] == '-' then -(DecimalValue(s[1..]) as int) else DecimalValue(s)
  }

  lemma {:induction false} NatToDecimalRoundTrip(n: nat)
    ensures DecimalValue(NatToDecimal(n)) == n
    decreases n
  {
    var s := NatToDecimal(n);
    if n >= 10 {
      NatToDecimalRoundTrip(n / 10);
      assert s[..|s| - 1] == NatToDecimal(n / 10);
    }
  }

  lemma IntToDecimalRoundTrip(n: int)
    ensures ParseInt(IntToDecimal(n)) == n
  {
    IntToDecimalSign(n);
    if n < 0 {
      NatToDecimalRoundTrip(-n);
      assert IntToDecimal(n)[1..] == NatToDecimal(-n);
    } else {
      NatToDecimalRoundTrip(n);
    }
  }

  /** The string `${shopifyId}-${orderId}` whose SHA-256 digest is the fingerprint. */
  function TransactionHashInput(shopifyId: int, orderId: int): string
  {
    IntToDecimal(shopifyId) + "-" + IntToDecimal(orderId)
  }

  /** The position of the first '-' at or after `i` in `s`, or |s| when there is none. */
  function DashFrom(s: string, i: nat): (k: nat)
    requires i <= |s|
    ensures i <= k <= |s|
    decreases |s| - i
  {
    if i == |s| || s[i] == '-' then i else DashFrom(s, i + 1)
  }

  /** Reads `${a}-${b}` back into (a, b): the separator is the first '-' after
      the first character, since only a leading sign can precede it. */
  function ParseHashInput(s: string): (int, int)
  {
    if |s| == 0 then (0, 0)
    else
      var k := DashFrom(s, 1);
      (ParseInt(s[..k]), if k < |s| then ParseInt(s[k + 1..]) else 0)
  }

  lemma {:induction false} DashFromFindsSeparator(a: string, b: string, i: nat)
    requires 1 <= i <= |a|
    requires forall j :: 1 <= j < |a| ==> a[j] != '-'
    ensures DashFrom(a + "-" + b, i) == |a|
    decreases |a| - i
  {
    var s := a + "-" + b;
    if i < |a| {
      assert s[i] == a[i];
      DashFromFindsSeparator(a, b, i + 1);
    } else {
      assert s[i] == '-';
    }
  }

  lemma TransactionHashInputRoundTrip(shopifyId: int, orderId: int)
    ensures ParseHashInput(TransactionHashInput(shopifyId, orderId)) == (shopifyId, orderId)
  {
    var a, b := IntToDecimal(shopifyId), IntToDecimal(orderId);
    var s := a + "-" + b;
    IntToDecimalSign(shopifyId);
    DashFromFindsSeparator(a, b, 1);
    assert s[..|a|] == a;
    assert s[|a| + 1..] == b;
    IntToDecimalRoundTrip(shopifyId);
    IntToDecimalRoundTrip(orderId);
  }

  /** The hashed string determines the pair it was built from. */
  lemma TransactionHashInputInjective(s1: int, o1: int, s2: int, o2: int)
    requires TransactionHashInput(s1, o1) == TransactionHashInput(s2, o2)
    ensures s1 == s2 && o1 == o2
  {
    TransactionHashInputRoundTrip(s1, o1);
    TransactionHashInputRoundTrip(s2, o2);
  }

  /** `generateTransactionHash`: the SHA-256 hex digest of `${shopifyId}-${orderId}`. */
  function GenerateTransactionHash(sha256Hex: string -> string, shopifyId: int, orderId: int): string
  {
    sha256Hex(TransactionHashInput(shopifyId, orderId))
  }

  /** The assumption, made about SHA-256 and nothing else, that it has no collisions. */
  ghost predicate Injective(f: string -> string) {
    forall x, y :: f(x) == f(y) ==> x == y
  }

  /** With a collision-free hash, the fingerprint determines (shopify id, order id). */
  lemma FingerprintDeterminesOrder(h: string -> string, s1: int, o1: int, s2: int, o2: int)
    requires Injective(h)
    requires GenerateTransactionHash(h, s1, o1) == GenerateTransactionHash(h, s2, o2)
    ensures s1 == s2 && o1 == o2
  {
    TransactionHashInputInjective(s1, o1, s2, o2);
  }

  // ---------------------------------------------------------------------------
  // Queries and the invariants of the tables

  /** The sum of `points_added` over the transactions of customer `customerId`. */
  function PointsFor(txs: seq<Transaction>, customerId: nat): int
    decreases |txs|
  {
    if txs == [] then 0
    else
      var last := txs[|txs| - 1];
      PointsFor(txs[..|txs| - 1], customerId) + (if last.customerId == customerId then last.pointsAdded else 0)
  }

  lemma PointsForAppend(txs: seq<Transaction>, tx: Transaction, customerId: nat)
    ensures PointsFor(txs + [tx], customerId)
         == PointsFor(txs, customerId) + (if tx.customerId == customerId then tx.pointsAdded else 0)
  {
    assert (txs + [tx])[..|txs|] == txs;
  }

  lemma {:induction false} PointsForOfStranger(txs: seq<Transaction>, customerId: nat)
    requires forall i :: 0 <= i < |txs| ==> txs[i].customerId != customerId
    ensures PointsFor(txs, customerId) == 0
    decreases |txs|
  {
    if txs != [] {
      PointsForOfStranger(txs[..|txs| - 1], customerId);
    }
  }

  lemma {:induction false} PointsForNonNegative(txs: seq<Transaction>, customerId: nat)
    requires forall i :: 0 <= i < |txs| ==> txs[i].pointsAdded > 0
    ensures PointsFor(txs, customerId) >= 0
    decreases |txs|
  {
    if txs != [] {
      PointsForNonNegative(txs[..|txs| - 1], customerId);
    }
  }

  /** Some customer already has `shopifyId`, so inserting it again would
      violate the UNIQUE constraint on `customers.shopify_id`. */
  predicate ShopifyIdTaken(t: Tables, shopifyId: int) {
    exists e | e in t.customers :: t.customers[e].shopifyId == shopifyId
  }

  /** `SELECT id FROM transactions WHERE transaction_hash = $1` finds a row. */
  predicate HasTransaction(txs: seq<Transaction>, hash: string) {
    exists i | 0 <= i < |txs| :: txs[i].transactionHash == hash
  }

  /** The shopify id of the customer with serial id `customerId` (0 when there is none). */
  function ShopifyIdOf(t: Tables, customerId: nat): int
  {
    if 1 <= customerId <= |t.created| && t.created[customerId - 1] in t.customers
    then t.customers[t.created[customerId - 1]].shopifyId
    else 0
  }

  /** Emails are unique keys and serial ids follow creation order. */
  ghost predicate CustomersIndexed(t: Tables) {
    && |t.created| == |t.customers|
    && (forall i :: 0 <= i < |t.created| ==>
          t.created[i] in t.customers && t.customers[t.created[i]].id == i + 1)
    && (forall e :: e in t.customers ==>
          && t.customers[e].email == e
          && 1 <= t.customers[e].id <= |t.created|
          && t.created[t.customers[e].id - 1] == e)
  }

  /** The UNIQUE constraint on `customers.shopify_id`. */
  ghost predicate ShopifyIdsUnique(t: Tables) {
    forall e1, e2 ::
      (e1 in t.customers && e2 in t.customers && t.customers[e1].shopifyId == t.customers[e2].shopifyId) ==> e1 == e2
  }

  /** Every ledger entry has its serial id, names an existing customer, adds
      points, and carries the fingerprint of (its customer's shopify id, its order id). */
  ghost predicate TransactionsWellFormed(t: Tables, h: string -> string) {
    forall i :: 0 <= i < |t.transactions| ==>
      && t.transactions[i].id == i + 1
      && 1 <= t.transactions[i].customerId <= |t.created|
      && t.transactions[i].pointsAdded > 0
      && t.transactions[i].transactionHash
         == GenerateTransactionHash(h, ShopifyIdOf(t, t.transactions[i].customerId), t.transactions[i].orderId)
  }

  /** At most one transaction per fingerprint (the UNIQUE constraint on `transaction_hash`). */
  ghost predicate FingerprintsUnique(txs: seq<Transaction>) {
    forall i, j :: 0 <= i < j < |txs| ==> txs[i].transactionHash != txs[j].transactionHash
  }

  /** Each balance equals the sum of `points_added` over the customer's transactions. */
  ghost predicate BalancesMatch(t: Tables) {
    forall e :: e in t.customers ==> t.customers[e].pointsBalance == PointsFor(t.transactions, t.customers[e].id)
  }

  ghost predicate TablesValid(t: Tables, h: string -> string) {
    && CustomersIndexed(t)
    && ShopifyIdsUnique(t)
    && TransactionsWellFormed(t, h)
    && FingerprintsUnique(t.transactions)
    && BalancesMatch(t)
  }

  lemma EmptyTablesValid(h: string -> string)
    ensures TablesValid(EmptyTables, h)
  {
  }

  /** Balances are never negative. */
  lemma BalancesNonNegative(t: Tables, h: string -> string, email: string)
    requires TablesValid(t, h)
    requires email in t.customers
    ensures t.customers[email].pointsBalance >= 0
  {
    PointsForNonNegative(t.transactions, t.customers[email].id);
  }

  /** The invariant rules out two transactions for one (shopify id, order id) pair. */
  lemma AtMostOneTransactionPerOrder(t: Tables, h: string -> string, i: nat, j: nat)
    requires TablesValid(t, h)
    requires i < |t.transactions| && j < |t.transactions|
    requires ShopifyIdOf(t, t.transactions[i].customerId) == ShopifyIdOf(t, t.transactions[j].customerId)
    requires t.transactions[i].orderId == t.transactions[j].orderId
    ensures i == j
  {
    assert t.transactions[i].transactionHash == t.transactions[j].transactionHash;
  }

  // ---------------------------------------------------------------------------
  // The two writes and the operations built from them

  /** `INSERT INTO customers (email, shopify_id, points_balance) VALUES ($1, $2, 0)`. */
  function InsertCustomer(t: Tables, email: string, shopifyId: int): Tables
  {
    Tables(t.customers[email := Customer(|t.created| + 1, email, shopifyId, 0)], t.created + [email], t.transactions)
  }

  /** `UPDATE customers SET points_balance = points_balance + points` on the row of `email`. */
  function AddToBalance(t: Tables, email: string, points: int): Tables
    requires email in t.customers
  {
    var c := t.customers[email];
    t.(customers := t.customers[email := c.(pointsBalance := c.pointsBalance + points)])
  }

  /** `INSERT INTO transactions (customer_id, order_id, amount_eur, points_added, transaction_hash)`,
      with the next serial id. */
  function AppendTransaction(t: Tables, customerId: nat, order: Order, points: int, hash: string): Tables
  {
    t.(transactions := t.transactions + [Transaction(|t.transactions| + 1, customerId, order.id, order.totalCents, points, hash)])
  }

  /** The two writes of a credit: the balance update, then the ledger entry. */
  function RecordCredit(t: Tables, email: string, order: Order, points: int, hash: string): Tables
    requires email in t.customers
  {
    AppendTransaction(AddToBalance(t, email, points), t.customers[email].id, order, points, hash)
  }

  lemma InsertKeepsIndexed(t: Tables, email: string, shopifyId: int)
    requires CustomersIndexed(t) && email !in t.customers
    ensures CustomersIndexed(InsertCustomer(t, email, shopifyId))
  {
    var t' := InsertCustomer(t, email, shopifyId);
    var n := |t.created|;
    forall i | 0 <= i < n
      ensures t'.created[i] in t'.customers && t'.customers[t'.created[i]].id == i + 1
    {
      assert t'.created[i] == t.created[i] != email;
    }
    assert t'.created[n] == email;
  }

  lemma InsertKeepsShopifyIdsUnique(t: Tables, email: string, shopifyId: int)
    requires ShopifyIdsUnique(t) && email !in t.customers && !ShopifyIdTaken(t, shopifyId)
    ensures ShopifyIdsUnique(InsertCustomer(t, email, shopifyId))
  {
  }

  lemma InsertKeepsShopifyIdOf(t: Tables, email: string, shopifyId: int, k: nat)
    requires CustomersIndexed(t) && email !in t.customers
    requires 1 <= k <= |t.created|
    ensures ShopifyIdOf(InsertCustomer(t, email, shopifyId), k) == ShopifyIdOf(t, k)
  {
    var t' := InsertCustomer(t, email, shopifyId);
    assert t'.created[k - 1] == t.created[k - 1] != email;
  }

  lemma InsertKeepsTransactionsWellFormed(t: Tables, h: string -> string, email: string, shopifyId: int)
    requires CustomersIndexed(t) && TransactionsWellFormed(t, h) && email !in t.customers
    ensures TransactionsWellFormed(InsertCustomer(t, email, shopifyId), h)
  {
    forall i | 0 <= i < |t.transactions|
      ensures ShopifyIdOf(InsertCustomer(t, email, shopifyId), t.transactions[i].customerId)
           == ShopifyIdOf(t, t.transactions[i].customerId)
    {
      InsertKeepsShopifyIdOf(t, email, shopifyId, t.transactions[i].customerId);
    }
  }

  lemma InsertKeepsBalances(t: Tables, h: string -> string, email: string, shopifyId: int)
    requires CustomersIndexed(t) && TransactionsWellFormed(t, h) && BalancesMatch(t) && email !in t.customers
    ensures BalancesMatch(InsertCustomer(t, email, shopifyId))
  {
    var n := |t.created|;
    assert forall i :: 0 <= i < |t.transactions| ==> t.transactions[i].customerId != n + 1;
    PointsForOfStranger(t.transactions, n + 1);
  }

  lemma InsertCustomerKeepsValid(t: Tables, h: string -> string, email: string, shopifyId: int)
    requires TablesValid(t, h)
    requires email !in t.customers && !ShopifyIdTaken(t, shopifyId)
    ensures TablesValid(InsertCustomer(t, email, shopifyId), h)
  {
    InsertKeepsIndexed(t, email, shopifyId);
    InsertKeepsShopifyIdsUnique(t, email, shopifyId);
    InsertKeepsTransactionsWellFormed(t, h, email, shopifyId);
    InsertKeepsBalances(t, h, email, shopifyId);
  }

  /** Raising a balance changes no email, id or creation order. */
  lemma AddToBalanceKeepsIndexed(t: Tables, email: string, points: int)
    requires CustomersIndexed(t) && email in t.customers
    ensures CustomersIndexed(AddToBalance(t, email, points))
  {
    var t' := AddToBalance(t, email, points);
    assert t'.customers.Keys == t.customers.Keys;
    forall e | e in t.customers
      ensures e in t'.customers && t'.customers[e].id == t.customers[e].id && t'.customers[e].email == t.customers[e].email
    {
      if e != email {
        assert t'.customers[e] == t.customers[e];
      }
    }
  }

  lemma RecordKeepsIndexed(t: Tables, email: string, order: Order, points: int, hash: string)
    requires CustomersIndexed(t) && email in t.customers
    ensures CustomersIndexed(RecordCredit(t, email, order, points, hash))
  {
    AddToBalanceKeepsIndexed(t, email, points);
    var t1 := AddToBalance(t, email, points);
    var t' := RecordCredit(t, email, order, points, hash);
    assert t'.customers == t1.customers && t'.created == t1.created;
  }

  lemma RecordKeepsShopifyIdsUnique(t: Tables, email: string, order: Order, points: int, hash: string)
    requires ShopifyIdsUnique(t) && email in t.customers
    ensures ShopifyIdsUnique(RecordCredit(t, email, order, points, hash))
  {
  }

  /** Recording a credit leaves every customer's shopify id where it was. */
  lemma RecordKeepsShopifyIdOf(t: Tables, email: string, order: Order, points: int, hash: string, k: nat)
    requires email in t.customers
    ensures ShopifyIdOf(RecordCredit(t, email, order, points, hash), k) == ShopifyIdOf(t, k)
  {
    var t' := RecordCredit(t, email, order, points, hash);
    assert t'.created == t.created && t'.customers.Keys == t.customers.Keys;
    if 1 <= k <= |t.created| && t.created[k - 1] in t.customers {
      assert t'.customers[t.created[k - 1]].shopifyId == t.customers[t.created[k - 1]].shopifyId;
    }
  }

  lemma RecordKeepsTransactionsWellFormed(t: Tables, h: string -> string, email: string, order: Order, points: int, hash: string)
    requires CustomersIndexed(t) && TransactionsWellFormed(t, h) && email in t.customers && points > 0
    requires hash == GenerateTransactionHash(h, t.customers[email].shopifyId, order.id)
    ensures TransactionsWellFormed(RecordCredit(t, email, order, points, hash), h)
  {
    var t' := RecordCredit(t, email, order, points, hash);
    var n := |t.transactions|;
    assert t'.created == t.created;
    assert |t'.transactions| == n + 1;
    forall i | 0 <= i < n + 1
      ensures && t'.transactions[i].id == i + 1
              && 1 <= t'.transactions[i].customerId <= |t'.created|
              && t'.transactions[i].pointsAdded > 0
              && t'.transactions[i].transactionHash
                 == GenerateTransactionHash(h, ShopifyIdOf(t', t'.transactions[i].customerId), t'.transactions[i].orderId)
    {
      var tx := t'.transactions[i];
      RecordKeepsShopifyIdOf(t, email, order, points, hash, tx.customerId);
      if i < n {
        assert tx == t.transactions[i];
      } else {
        assert tx == Transaction(n + 1, t.customers[email].id, order.id, order.totalCents, points, hash);
        assert ShopifyIdOf(t, t.customers[email].id) == t.customers[email].shopifyId;
      }
    }
  }

  lemma RecordKeepsFingerprintsUnique(t: Tables, email: string, order: Order, points: int, hash: string)
    requires FingerprintsUnique(t.transactions) && email in t.customers
    requires !HasTransaction(t.transactions, hash)
    ensures FingerprintsUnique(RecordCredit(t, email, order, points, hash).transactions)
  {
    var txs' := RecordCredit(t, email, order, points, hash).transactions;
    assert forall i :: 0 <= i < |t.transactions| ==> txs'[i] == t.transactions[i];
  }

  lemma RecordKeepsBalances(t: Tables, email: string, order: Order, points: int, hash: string)
    requires CustomersIndexed(t) && BalancesMatch(t) && email in t.customers
    ensures BalancesMatch(RecordCredit(t, email, order, points, hash))
  {
    var t' := RecordCredit(t, email, order, points, hash);
    var tx := t'.transactions[|t.transactions|];
    assert t'.transactions == t.transactions + [tx];
    forall e | e in t'.customers
      ensures t'.customers[e].pointsBalance == PointsFor(t'.transactions, t'.customers[e].id)
    {
      PointsForAppend(t.transactions, tx, t.customers[e].id);
    }
  }

  lemma RecordCreditKeepsValid(t: Tables, h: string -> string, email: string, order: Order, points: int, hash: string)
    requires TablesValid(t, h)
    requires email in t.customers && points > 0
    requires hash == GenerateTransactionHash(h, t.customers[email].shopifyId, order.id)
    requires !HasTransaction(t.transactions, hash)
    ensures TablesValid(RecordCredit(t, email, order, points, hash), h)
  {
    RecordKeepsIndexed(t, email, order, points, hash);
    RecordKeepsShopifyIdsUnique(t, email, order, points, hash);
    RecordKeepsTransactionsWellFormed(t, h, email, order, points, hash);
    RecordKeepsFingerprintsUnique(t, email, order, points, hash);
    RecordKeepsBalances(t, email, order, points, hash);
  }

  /** `getOrCreateCustomer(email, shopifyId)`: the row for `email`, inserted
      with a zero balance when there is none. */
  function GetOrCreate(t: Tables, email: string, shopifyId: int, fault: bool): (r: (Tables, Result<Customer, DbError>))
    requires CustomersIndexed(t)
    ensures r.1.Err? <==> fault || (email !in t.customers && ShopifyIdTaken(t, shopifyId))
    ensures r.1.Err? || email in t.customers ==> r.0 == t
    ensures !fault && email in t.customers ==> r.1 == Ok(t.customers[email])
    ensures r.1.Ok? ==> email in r.0.customers && r.1.value == r.0.customers[email] && r.1.value.email == email
    ensures r.1.Ok? && email !in t.customers ==>
      && r.1.value.pointsBalance == 0
      && r.1.value.shopifyId == shopifyId
      && r.0.customers.Keys == t.customers.Keys + {email}
      && (forall e :: e in t.customers ==> r.0.customers[e] == t.customers[e])
      && r.0.transactions == t.transactions
  {
    if fault then (t, Err(StorageFailure))
    else if email in t.customers then (t, Ok(t.customers[email]))
    else if ShopifyIdTaken(t, shopifyId) then (t, Err(UniqueViolation(SHOPIFY_ID_CONSTRAINT)))
    else
      var t' := InsertCustomer(t, email, shopifyId);
      (t', Ok(t'.customers[email]))
  }

  lemma GetOrCreateKeepsValid(t: Tables, h: string -> string, email: string, shopifyId: int, fault: bool)
    requires TablesValid(t, h)
    ensures TablesValid(GetOrCreate(t, email, shopifyId, fault).0, h)
  {
    if !fault && email !in t.customers && !ShopifyIdTaken(t, shopifyId) {
      InsertCustomerKeepsValid(t, h, email, shopifyId);
    }
  }

  /** The shopify id the fingerprint of `order` is computed from: that of the
      customer already registered under the order's email, or else the order
      id, which becomes the new customer's shopify id. */
  function FingerprintOwner(t: Tables, order: Order): int
  {
    if order.email in t.customers then t.customers[order.email].shopifyId else order.id
  }

  /** The tables after a successful credit of `order`, and the result reported. */
  ghost predicate Credited(t: Tables, t': Tables, h: string -> string, order: Order, res: CreditResult)
  {
    var email := order.email;
    var points := PointsFromCents(order.totalCents);
    var before := if email in t.customers then t.customers[email].pointsBalance else 0;
    && email in t'.customers
    && t'.customers.Keys == t.customers.Keys + {email}
    && (forall e :: e in t.customers && e != email ==> t'.customers[e] == t.customers[e])
    && t'.customers[email].shopifyId == FingerprintOwner(t, order)
    && t'.customers[email].pointsBalance == before + points
    && (email in t.customers ==>
          t'.customers[email] == t.customers[email].(pointsBalance := before + points) && t'.created == t.created)
    && (email !in t.customers ==>
          t'.customers[email].id == |t.created| + 1 && t'.created == t.created + [email])
    && t'.transactions == t.transactions + [Transaction(
         |t.transactions| + 1, t'.customers[email].id, order.id, order.totalCents, points,
         GenerateTransactionHash(h, FingerprintOwner(t, order), order.id))]
    && res == CreditResult(true, before + points, Some(|t.transactions| + 1))
  }

  /** `addPointsToCustomer(order)`, a single serializable transaction: any
      outcome other than a credit leaves the tables as they were (rollback). */
  function CreditOrder(t: Tables, h: string -> string, order: Order, fault: bool): (r: (Tables, Result<CreditResult, DbError>))
    ensures !(r.1.Ok? && r.1.value.success) ==> r.0 == t
    ensures r.1.Ok? && !r.1.value.success ==> r.1.value == NotCredited()
    ensures fault ==> r.1 == Err(StorageFailure)
    ensures !fault && order.currency != ACCEPTED_CURRENCY ==> r.1 == Ok(NotCredited())
    ensures !fault && PointsFromCents(order.totalCents) <= 0 ==> r.1 == Ok(NotCredited())
  {
    if fault then (t, Err(StorageFailure))
    else if order.currency != ACCEPTED_CURRENCY then (t, Ok(NotCredited()))
    else
      var points := PointsFromCents(order.totalCents);
      if points <= 0 then (t, Ok(NotCredited()))
      else if order.email !in t.customers && ShopifyIdTaken(t, order.id) then
        (t, Err(UniqueViolation(SHOPIFY_ID_CONSTRAINT)))
      else
        var t1 := if order.email in t.customers then t else InsertCustomer(t, order.email, order.id);
        var hash := GenerateTransactionHash(h, FingerprintOwner(t, order), order.id);
        if HasTransaction(t1.transactions, hash) then (t, Ok(NotCredited()))
        else
          var t2 := RecordCredit(t1, order.email, order, points, hash);
          (t2, Ok(CreditResult(true, t2.customers[order.email].pointsBalance, Some(|t2.transactions|))))
  }

  /** The call throws exactly on a storage failure, or when the order's email
      is new and its id is already some customer's shopify id. */
  lemma CreditOrderFailsWhen(t: Tables, h: string -> string, order: Order, fault: bool)
    ensures CreditOrder(t, h, order, fault).1.Err? <==>
      || fault
      || (&& order.currency == ACCEPTED_CURRENCY && PointsFromCents(order.totalCents) > 0
          && order.email !in t.customers && ShopifyIdTaken(t, order.id))
  {
  }

  /** The order is credited exactly when it is in euros, worth at least one
      point, can be given a customer, and its fingerprint is not yet in the ledger. */
  lemma CreditOrderSucceedsWhen(t: Tables, h: string -> string, order: Order, fault: bool)
    ensures var r := CreditOrder(t, h, order, fault);
      r.1.Ok? && r.1.value.success <==>
      && !fault
      && order.currency == ACCEPTED_CURRENCY
      && PointsFromCents(order.totalCents) > 0
      && (order.email in t.customers || !ShopifyIdTaken(t, order.id))
      && !HasTransaction(t.transactions, GenerateTransactionHash(h, FingerprintOwner(t, order), order.id))
  {
  }

  /** A credit adds exactly one transaction and raises exactly one balance. */
  lemma CreditOrderCredits(t: Tables, h: string -> string, order: Order, fault: bool)
    requires CreditOrder(t, h, order, fault).1.Ok? && CreditOrder(t, h, order, fault).1.value.success
    ensures Credited(t, CreditOrder(t, h, order, fault).0, h, order, CreditOrder(t, h, order, fault).1.value)
  {
    var email := order.email;
    var t1 := if email in t.customers then t else InsertCustomer(t, email, order.id);
    assert t1.customers[email].shopifyId == FingerprintOwner(t, order);
    assert t1.customers.Keys == t.customers.Keys + {email};
  }

  /** Crediting keeps every invariant of the tables. */
  lemma CreditOrderKeepsValid(t: Tables, h: string -> string, order: Order, fault: bool)
    requires TablesValid(t, h)
    ensures TablesValid(CreditOrder(t, h, order, fault).0, h)
  {
    var r := CreditOrder(t, h, order, fault);
    if r.1.Ok? && r.1.value.success {
      var email := order.email;
      var t1 := if email in t.customers then t else InsertCustomer(t, email, order.id);
      if email !in t.customers {
        InsertCustomerKeepsValid(t, h, email, order.id);
      }
      var hash := GenerateTransactionHash(h, FingerprintOwner(t, order), order.id);
      RecordCreditKeepsValid(t1, h, email, order, PointsFromCents(order.totalCents), hash);
    }
  }

  /** The order has been credited: its email has a customer and the ledger
      holds the fingerprint of that customer's shopify id with the order id. */
  predicate AlreadyCredited(t: Tables, h: string -> string, order: Order) {
    && order.email in t.customers
    && HasTransaction(t.transactions, GenerateTransactionHash(h, t.customers[order.email].shopifyId, order.id))
  }

  /** A successful credit leaves the order recorded as credited. */
  lemma CreditRecordsOrder(t: Tables, h: string -> string, order: Order, fault: bool)
    requires CreditOrder(t, h, order, fault).1.Ok? && CreditOrder(t, h, order, fault).1.value.success
    ensures AlreadyCredited(CreditOrder(t, h, order, fault).0, h, order)
  {
    CreditOrderCredits(t, h, order, fault);
    var t' := CreditOrder(t, h, order, fault).0;
    assert t'.transactions[|t.transactions|].transactionHash
        == GenerateTransactionHash(h, t'.customers[order.email].shopifyId, order.id);
  }

  /** An order already credited, delivered again, is rejected as a duplicate and changes
      nothing, whatever else happens to that call. */
  lemma AlreadyCreditedIsRejected(t: Tables, h: string -> string, order: Order, fault: bool)
    requires AlreadyCredited(t, h, order)
    ensures CreditOrder(t, h, order, fault).0 == t
    ensures !(CreditOrder(t, h, order, fault).1.Ok? && CreditOrder(t, h, order, fault).1.value.success)
  {
    assert FingerprintOwner(t, order) == t.customers[order.email].shopifyId;
  }

  /** Crediting any order keeps every existing customer's shopify id and every
      existing transaction. */
  lemma CreditOrderKeepsHistory(t: Tables, h: string -> string, order: Order, fault: bool)
    ensures var t' := CreditOrder(t, h, order, fault).0;
      && t.customers.Keys <= t'.customers.Keys
      && (forall e :: e in t.customers ==> t'.customers[e].shopifyId == t.customers[e].shopifyId)
      && t.transactions <= t'.transactions
  {
    var r := CreditOrder(t, h, order, fault);
    if r.1.Ok? && r.1.value.success {
      CreditOrderCredits(t, h, order, fault);
    }
  }

  /** Once credited, an order stays credited whatever is credited afterwards. */
  lemma CreditOrderKeepsAlreadyCredited(t: Tables, h: string -> string, order: Order, other: Order, fault: bool)
    requires AlreadyCredited(t, h, order)
    ensures AlreadyCredited(CreditOrder(t, h, other, fault).0, h, order)
  {
    CreditOrderKeepsHistory(t, h, other, fault);
    var t' := CreditOrder(t, h, other, fault).0;
    var hash := GenerateTransactionHash(h, t.customers[order.email].shopifyId, order.id);
    var i :| 0 <= i < |t.transactions| && t.transactions[i].transactionHash == hash;
    assert t'.transactions[i] == t.transactions[i];
  }

  /** A credited order, delivered again, is rejected and changes nothing. */
  lemma ReplayIsRejected(t: Tables, h: string -> string, order: Order, fault: bool)
    requires CreditOrder(t, h, order, false).1.Ok? && CreditOrder(t, h, order, false).1.value.success
    ensures var t' := CreditOrder(t, h, order, false).0;
      && CreditOrder(t', h, order, fault).0 == t'
      && !(CreditOrder(t', h, order, fault).1.Ok? && CreditOrder(t', h, order, fault).1.value.success)
  {
    CreditRecordsOrder(t, h, order, false);
    AlreadyCreditedIsRejected(CreditOrder(t, h, order, false).0, h, order, fault);
  }

  /** With a collision-free hash, the fingerprint check rejects only true
      duplicates: an accepted order whose id has no transaction yet is credited. */
  lemma UnseenOrderIsCredited(t: Tables, h: string -> string, order: Order)
    requires TablesValid(t, h) && Injective(h)
    requires order.currency == ACCEPTED_CURRENCY && PointsFromCents(order.totalCents) > 0
    requires order.email in t.customers || !ShopifyIdTaken(t, order.id)
    requires forall i :: 0 <= i < |t.transactions| ==> t.transactions[i].orderId != order.id
    ensures CreditOrder(t, h, order, false).1.Ok? && CreditOrder(t, h, order, false).1.value.success
  {
    var hash := GenerateTransactionHash(h, FingerprintOwner(t, order), order.id);
    forall i | 0 <= i < |t.transactions|
      ensures t.transactions[i].transactionHash != hash
    {
      var tx := t.transactions[i];
      if tx.transactionHash == hash {
        FingerprintDeterminesOrder(h, ShopifyIdOf(t, tx.customerId), tx.orderId, FingerprintOwner(t, order), order.id);
        assert false;
      }
    }
  }

  // ---------------------------------------------------------------------------
  // The ledger as the service sees it: two tables changed statement by statement

  /** `WHERE id = $1` finds the customer whose id was read by email. */
  lemma LocateCustomer(t: Tables, email: string)
    requires CustomersIndexed(t) && email in t.customers
    ensures 1 <= t.customers[email].id <= |t.created| && t.created[t.customers[email].id - 1] == email
  {
  }

  /** Customers newest first, given the emails in creation order. */
  function NewestFirst(m: map<string, Customer>, order: seq<string>): (r: seq<Customer>)
    requires forall i :: 0 <= i < |order| ==> order[i] in m
    ensures |r| == |order|
    ensures forall i :: 0 <= i < |r| ==> r[i] == m[order[|order| - 1 - i]]
    decreases |order|
  {
    if order == [] then [] else [m[order[|order| - 1]]] + NewestFirst(m, order[..|order| - 1])
  }

  /** The customers newest first: every customer exactly once, by descending id. */
  lemma NewestFirstLists(t: Tables)
    requires CustomersIndexed(t)
    ensures var r := NewestFirst(t.customers, t.created);
      && |r| == |t.customers|
      && (forall i :: 0 <= i < |r| ==> r[i].email in t.customers && t.customers[r[i].email] == r[i])
      && (forall i :: 0 <= i < |r| ==> r[i].id == |r| - i)
      && (forall e :: e in t.customers ==> t.customers[e] in r)
  {
    var r := NewestFirst(t.customers, t.created);
    forall e | e in t.customers
      ensures t.customers[e] in r
    {
      var k := t.customers[e].id;
      assert r[|r| - k] == t.customers[t.created[k - 1]];
    }
  }

  /** The two tables behind the service, changed one SQL statement at a time. */
  class Ledger {
    var tables: Tables
    /** SHA-256 with hexadecimal output. */
    const sha256Hex: string -> string

    ghost predicate Valid()
      reads this
    {
      TablesValid(tables, sha256Hex)
    }

    constructor (sha256Hex: string -> string)
      ensures Valid() && tables == EmptyTables && this.sha256Hex == sha256Hex
    {
      tables := EmptyTables;
      this.sha256Hex := sha256Hex;
      new;
      EmptyTablesValid(sha256Hex);
    }

    /** `getOrCreateCustomer(email, shopifyId)`. */
    method GetOrCreateCustomer(email: string, shopifyId: int, fault: bool) returns (r: Result<Customer, DbError>)
      requires Valid()
      modifies this
      ensures Valid()
      ensures (tables, r) == GetOrCreate(old(tables), email, shopifyId, fault)
    {
      if fault {
        return Err(StorageFailure);
      }
      // BEGIN ISOLATION LEVEL SERIALIZABLE; SELECT ... FROM customers WHERE email = $1
      ghost var before := tables;
      var customerId: nat;
      if email in tables.customers {
        customerId := tables.customers[email].id;
        LocateCustomer(tables, email);
      } else {
        if ShopifyIdTaken(tables, shopifyId) {
          // the INSERT violates the unique constraint on shopify_id; ROLLBACK
          return Err(UniqueViolation(SHOPIFY_ID_CONSTRAINT));
        }
        customerId := |tables.created| + 1;
        tables := InsertCustomer(tables, email, shopifyId);
        assert tables.created[customerId - 1] == email;
      }
      // SELECT ... FROM customers WHERE id = customerId; COMMIT
      r := Ok(tables.customers[tables.created[customerId - 1]]);
      assert (tables, r) == GetOrCreate(before, email, shopifyId, fault);
      GetOrCreateKeepsValid(before, sha256Hex, email, shopifyId, fault);
    }

    /** `addPointsToCustomer(order)`. */
    method AddPointsToCustomer(order: Order, fault: bool) returns (r: Result<CreditResult, DbError>)
      requires Valid()
      modifies this
      ensures Valid()
      ensures (tables, r) == CreditOrder(old(tables), sha256Hex, order, fault)
    {
      if fault {
        return Err(StorageFailure);
      }
      // BEGIN ISOLATION LEVEL SERIALIZABLE
      var before := tables;
      if order.currency != ACCEPTED_CURRENCY {
        return Ok(NotCredited());
      }
      var pointsToAdd := PointsFromCents(order.totalCents);
      if pointsToAdd <= 0 {
        return Ok(NotCredited());
      }
      // SELECT id, shopify_id FROM customers WHERE email = $1
      var customerId: nat;
      var shopifyId: int;
      if order.email in tables.customers {
        customerId, shopifyId := tables.customers[order.email].id, tables.customers[order.email].shopifyId;
        LocateCustomer(tables, order.email);
      } else {
        if ShopifyIdTaken(tables, order.id) {
          // the INSERT violates the unique constraint on shopify_id; ROLLBACK
          return Err(UniqueViolation(SHOPIFY_ID_CONSTRAINT));
        }
        customerId, shopifyId := |tables.created| + 1, order.id;
        tables := InsertCustomer(tables, order.email, order.id);
      }
      ghost var inserted := tables;
      assert inserted == if order.email in before.customers then before else InsertCustomer(before, order.email, order.id);
      assert shopifyId == FingerprintOwner(before, order);
      var transactionHash := GenerateTransactionHash(sha256Hex, shopifyId, order.id);
      // SELECT id FROM transactions WHERE transaction_hash = $1
      if HasTransaction(tables.transactions, transactionHash) {
        // ROLLBACK, which also undoes a customer inserted above
        tables := before;
        return Ok(NotCredited());
      }
      // UPDATE customers ... WHERE id = customerId RETURNING points_balance
      var email := tables.created[customerId - 1];
      assert email == order.email && customerId == tables.customers[email].id;
      tables := AddToBalance(tables, email, pointsToAdd);
      var newBalance := tables.customers[email].pointsBalance;
      // INSERT INTO transactions ... RETURNING id; COMMIT
      var transactionId := |tables.transactions| + 1;
      tables := AppendTransaction(tables, customerId, order, pointsToAdd, transactionHash);
      r := Ok(CreditResult(true, newBalance, Some(transactionId)));
      assert tables == RecordCredit(inserted, order.email, order, pointsToAdd, transactionHash);
      assert newBalance == tables.customers[order.email].pointsBalance && transactionId == |tables.transactions|;
      CreditOrderKeepsValid(before, sha256Hex, order, fault);
    }

    /** `getCustomerBalance(email)`: the row for `email`, or null; a failed
        query is rethrown. */
    function GetCustomerBalance(email: string, fault: bool): (r: Result<Option<Customer>, DbError>)
      reads this
      requires Valid()
      ensures r.Err? <==> fault
      ensures r.Err? ==> r.error == StorageFailure
      ensures r.Ok? ==> (r.value.None? <==> email !in tables.customers)
      ensures r.Ok? && r.value.Some? ==> r.value.value == tables.customers[email] && r.value.value.email == email
      ensures r.Ok? && r.value.Some? ==>
        r.value.value.pointsBalance == PointsFor(tables.transactions, r.value.value.id) && r.value.value.pointsBalance >= 0
    {
      if fault then Err(StorageFailure)
      else if email in tables.customers then
        BalancesNonNegative(tables, sha256Hex, email);
        Ok(Some(tables.customers[email]))
      else Ok(None)
    }

    /** `getAllCustomers()`: every customer, newest first; a failed query is rethrown. */
    function GetAllCustomers(fault: bool): (r: Result<seq<Customer>, DbError>)
      reads this
      requires Valid()
      ensures r.Err? <==> fault
      ensures r.Err? ==> r.error == StorageFailure
      ensures r.Ok? ==> |r.value| == |tables.customers|
      ensures r.Ok? ==> forall i :: 0 <= i < |r.value| ==> r.value[i].email in tables.customers && tables.customers[r.value[i].email] == r.value[i]
      ensures r.Ok? ==> forall i :: 0 <= i < |r.value| ==> r.value[i].id == |r.value| - i
      ensures r.Ok? ==> forall e :: e in tables.customers ==> tables.customers[e] in r.value
    {
      if fault then Err(StorageFailure)
      else
        var all := NewestFirst(tables.customers, tables.created);
        NewestFirstLists(tables);
        Ok(all)
    }
  }
}
