/** The SQLite store of the system: the rows of its six business tables, the
    column defaults an INSERT fills in, the SELECT detection of
    `execute_query`, and the lookups of `SQLManager` as pure reads of the
    tables. A store that cannot be opened or queried is `Offline`, carrying
    the text of the driver's exception. */
module Store {
  import opened Text
  import opened Wrappers
  import opened Relation

  /** A DECIMAL value, carried as the text Python prints for it in a frame
      holding its row alone. */
  type Amount = string

  /** A DECIMAL(15,2) balance in hundredths of the currency unit. */
  type Cents = int

  /** A row of `customers`. */
  datatype Customer = Customer(
    customerId: string, name: string, email: Option<string>, phone: Option<string>,
    domain: string, createdAt: string)

  /** A column value an INSERT supplies: left out (the column's DEFAULT
      applies), or named with a value or an explicit NULL. */
  datatype Param<T> = Omitted | Named(value: Option<T>)
  {
    /** The stored value: the default when omitted, else what was named. */
    function Filled(default: T): Option<T> {
      match this
      case Omitted => Some(default)
      case Named(v) => v
    }
  }

  /** A row of `orders`. The columns with a DEFAULT but no NOT NULL are
      `Option`s here and in the rows below: NULL stays storable. */
  datatype Order = Order(
    orderId: string, customerId: string, productName: Option<string>, status: Option<string>,
    totalAmount: Amount, shippingAddress: Option<string>, trackingNumber: Option<string>,
    createdAt: string)

  /** A row of `products`. */
  datatype Product = Product(
    productId: string, name: string, price: Amount, stockQuantity: Option<int>,
    category: Option<string>, description: Option<string>)

  /** A row of `bank_accounts`. */
  datatype BankAccount = BankAccount(
    accountNumber: string, customerId: string, accountType: Option<string>, balance: Option<Cents>,
    status: Option<string>, createdAt: string)

  /** A row of `transactions`. */
  datatype Transaction = Transaction(
    transactionId: string, accountNumber: string, amount: Amount, transactionType: string,
    description: Option<string>, createdAt: string)

  /** A row of `telecom_accounts`. */
  datatype TelecomAccount = TelecomAccount(
    phoneNumber: string, customerId: string, planType: Option<string>, monthlyCharge: Amount,
    dataUsageGb: Amount, status: Option<string>, lastPaymentDate: Option<string>, createdAt: string)

  /** The business tables. */
  datatype Tables = Tables(
    customers: seq<Customer>, orders: seq<Order>, products: seq<Product>,
    bankAccounts: seq<BankAccount>, transactions: seq<Transaction>,
    telecomAccounts: seq<TelecomAccount>)

  /** The database as the tools see it: readable, or failing every query. */
  datatype Db = Online(tables: Tables) | Offline(error: string)

  // ---------------------------------------------------------------------
  // Key columns

  function CustomerKey(c: Customer): string { c.customerId }
  function OrderKey(o: Order): string { o.orderId }
  function OrderOwner(o: Order): string { o.customerId }
  function OrderStamp(o: Order): string { o.createdAt }
  function ProductKey(p: Product): string { p.productId }
  function AccountKey(a: BankAccount): string { a.accountNumber }
  function TransactionKey(t: Transaction): string { t.transactionId }
  function TransactionAccount(t: Transaction): string { t.accountNumber }
  function TransactionStamp(t: Transaction): string { t.createdAt }
  function LineKey(a: TelecomAccount): string { a.phoneNumber }

  /** Every UNIQUE column of the schema holds distinct values. */
  predicate Valid(t: Tables) {
    && KeysUnique(t.customers, CustomerKey)
    && KeysUnique(t.orders, OrderKey)
    && KeysUnique(t.products, ProductKey)
    && KeysUnique(t.bankAccounts, AccountKey)
    && KeysUnique(t.transactions, TransactionKey)
    && KeysUnique(t.telecomAccounts, LineKey)
  }

  /** The empty database `init_database` creates. */
  const EmptyTables := Tables([], [], [], [], [], [])

  // ---------------------------------------------------------------------
  // Column defaults

  /** An `orders` row from the values an INSERT names; an omitted status is
      'processing' and an omitted timestamp is the current one. */
  function NewOrder(
    orderId: string, customerId: string, productName: Option<string>, status: Param<string>,
    totalAmount: Amount, shippingAddress: Option<string>, trackingNumber: Option<string>,
    now: string): (o: Order)
    ensures o.orderId == orderId && o.customerId == customerId
    ensures status.Omitted? ==> o.status == Some("processing")
    ensures status.Named? ==> o.status == status.value
    ensures o.createdAt == now
  {
    Order(orderId, customerId, productName, status.Filled("processing"), totalAmount,
      shippingAddress, trackingNumber, now)
  }

  /** A `products` row; an omitted stock quantity is 0. */
  function NewProduct(
    productId: string, name: string, price: Amount, stockQuantity: Param<int>,
    category: Option<string>, description: Option<string>): (p: Product)
    ensures p.productId == productId && p.name == name
    ensures stockQuantity.Omitted? ==> p.stockQuantity == Some(0)
    ensures stockQuantity.Named? ==> p.stockQuantity == stockQuantity.value
  {
    Product(productId, name, price, stockQuantity.Filled(0), category, description)
  }

  /** A `bank_accounts` row; omitted columns are a 'checking' account with
      balance 0.00 and status 'active'. */
  function NewBankAccount(
    accountNumber: string, customerId: string, accountType: Param<string>,
    balance: Param<Cents>, status: Param<string>, now: string): (a: BankAccount)
    ensures a.accountNumber == accountNumber && a.customerId == customerId
    ensures accountType.Omitted? ==> a.accountType == Some("checking")
    ensures balance.Omitted? ==> a.balance == Some(0)
    ensures status.Omitted? ==> a.status == Some("active")
    ensures accountType.Named? ==> a.accountType == accountType.value
    ensures balance.Named? ==> a.balance == balance.value
    ensures status.Named? ==> a.status == status.value
    ensures a.createdAt == now
  {
    BankAccount(accountNumber, customerId, accountType.Filled("checking"),
      balance.Filled(0), status.Filled("active"), now)
  }

  /** A `telecom_accounts` row; omitted usage is 0 and omitted status 'active'. */
  function NewTelecomAccount(
    phoneNumber: string, customerId: string, planType: Option<string>, monthlyCharge: Amount,
    dataUsageGb: Option<Amount>, status: Param<string>, lastPaymentDate: Option<string>,
    now: string): (a: TelecomAccount)
    ensures a.phoneNumber == phoneNumber && a.customerId == customerId
    ensures dataUsageGb.None? ==> a.dataUsageGb == "0"
    ensures status.Omitted? ==> a.status == Some("active")
    ensures status.Named? ==> a.status == status.value
    ensures a.createdAt == now
  {
    TelecomAccount(phoneNumber, customerId, planType, monthlyCharge, dataUsageGb.GetOr("0"),
      status.Filled("active"), lastPaymentDate, now)
  }

  // ---------------------------------------------------------------------
  // Inserts

  /** `INSERT INTO orders`: refused when the order id is taken. */
  function InsertOrder(t: Tables, o: Order): (r: Result<Tables>)
    ensures r.Fault? <==> HasKey(t.orders, OrderKey, o.orderId)
    ensures r.Ok? ==> r.value == t.(orders := t.orders + [o])
    ensures r.Ok? && Valid(t) ==> Valid(r.value)
  {
    match Insert(t.orders, OrderKey, o, "orders.order_id")
    case Ok(rows) => Ok(t.(orders := rows))
    case Fault(e) => Fault(e)
  }

  /** `INSERT INTO bank_accounts`: refused when the account number is taken. */
  function InsertBankAccount(t: Tables, a: BankAccount): (r: Result<Tables>)
    ensures r.Fault? <==> HasKey(t.bankAccounts, AccountKey, a.accountNumber)
    ensures r.Ok? ==> r.value == t.(bankAccounts := t.bankAccounts + [a])
    ensures r.Ok? && Valid(t) ==> Valid(r.value)
  {
    match Insert(t.bankAccounts, AccountKey, a, "bank_accounts.account_number")
    case Ok(rows) => Ok(t.(bankAccounts := rows))
    case Fault(e) => Fault(e)
  }

  /** `INSERT OR REPLACE INTO orders`: an order with the same id is
      replaced. Only the orders change; the tables stay valid; the id then
      looks up exactly the new order; on a free id it is the plain insert. */
  function ReplaceOrder(t: Tables, o: Order): (r: Tables)
    ensures r == t.(orders := r.orders)
    ensures Valid(t) ==> Valid(r)
    ensures Matching(r.orders, OrderKey, o.orderId) == [o]
    ensures !HasKey(t.orders, OrderKey, o.orderId) ==> InsertOrder(t, o) == Ok(r)
  {
    ReplaceThenLookup(t.orders, OrderKey, o);
    ReplaceWhenFree(t.orders, OrderKey, o, "orders.order_id");
    t.(orders := Replace(t.orders, OrderKey, o))
  }

  /** `INSERT OR REPLACE INTO bank_accounts`: an account with the same number
      is replaced, with the same guarantees as for orders. */
  function ReplaceBankAccount(t: Tables, a: BankAccount): (r: Tables)
    ensures r == t.(bankAccounts := r.bankAccounts)
    ensures Valid(t) ==> Valid(r)
    ensures Matching(r.bankAccounts, AccountKey, a.accountNumber) == [a]
    ensures !HasKey(t.bankAccounts, AccountKey, a.accountNumber) ==> InsertBankAccount(t, a) == Ok(r)
  {
    ReplaceThenLookup(t.bankAccounts, AccountKey, a);
    ReplaceWhenFree(t.bankAccounts, AccountKey, a, "bank_accounts.account_number");
    t.(bankAccounts := Replace(t.bankAccounts, AccountKey, a))
  }

  /** Loading the same order twice leaves the tables as loading it once:
      the loader's statements can be re-run. */
  lemma ReloadOrderIdempotent(t: Tables, o: Order)
    ensures ReplaceOrder(ReplaceOrder(t, o), o) == ReplaceOrder(t, o)
  {
    ReplaceIdempotent(t.orders, OrderKey, o);
  }

  /** Replacing an order never disturbs the lookup of another order id. */
  lemma ReplaceOrderKeepsOthers(t: Tables, o: Order, orderId: string)
    requires orderId != o.orderId
    ensures Matching(ReplaceOrder(t, o).orders, OrderKey, orderId) == Matching(t.orders, OrderKey, orderId)
  {
    ReplaceKeepsOthers(t.orders, OrderKey, o, orderId);
  }

  // ---------------------------------------------------------------------
  // execute_query

  /** What `execute_query` hands back: the fetched rows of a SELECT (an
      empty frame when nothing matched), or `True` after a commit. */
  datatype Outcome<R> = Frame(rows: seq<R>) | Committed

  /** The SELECT test: leading and trailing whitespace removed, upper-cased,
      then a prefix check. */
  predicate IsSelect(query: string) {
    StartsWith(Upper(Strip(query)), "SELECT")
  }

  /** `execute_query`, given the rows the driver fetched for the statement. */
  function ExecuteQuery<R>(query: string, fetched: seq<R>): (r: Outcome<R>)
    ensures r.Frame? <==> IsSelect(query)
    ensures r.Frame? ==> r.rows == fetched
  {
    if IsSelect(query) then Frame(fetched) else Committed
  }

  /** The SELECT test ignores ASCII case. */
  lemma IsSelectIgnoresCase(query: string)
    ensures IsSelect(Lower(query)) <==> IsSelect(query)
  {
    LowerStrip(query);
    UpperLower(Strip(query));
  }

  /** For a statement without surrounding whitespace the SELECT test looks
      at its first six characters only. */
  lemma SelectTestOnTrimmed(query: string)
    requires |query| >= 6 && !IsSpace(query[0]) && !IsSpace(query[|query| - 1])
    ensures IsSelect(query) <==> Upper(query[..6]) == "SELECT"
  {
    assert LeadingSpace(query) == 0;
    assert query[0..] == query;
    assert TrailingSpace(query) == 0;
    assert Strip(query) == query;
    assert Upper(query)[..6] == Upper(query[..6]);
  }

  /** A statement that opens with the keyword and ends in a non-space
      character is a SELECT. */
  lemma SelectStatement(rest: string)
    requires |rest| > 0 && !IsSpace(rest[|rest| - 1])
    ensures IsSelect("SELECT" + rest)
  {
    var q := "SELECT" + rest;
    SelectTestOnTrimmed(q);
    assert q[..6] == "SELECT";
  }

  /** Whitespace in front of the statement does not matter. */
  lemma SelectTestSkipsLeadingSpace(c: char, query: string)
    requires IsSpace(c)
    ensures IsSelect([c] + query) <==> IsSelect(query)
  {
    StripSkipsLeadingSpace(c, query);
  }

  /** Case does not hide a SELECT. */
  lemma LowerCaseSelectDetected()
    ensures IsSelect("select * from orders")
  {
    SelectTestOnTrimmed("select * from orders");
    assert "select * from orders"[..6] == "select";
    assert Upper("select") == "SELECT";
  }

  /** A write statement is not a SELECT. */
  lemma InsertNotSelect()
    ensures !IsSelect("INSERT INTO orders VALUES (1)")
  {
    SelectTestOnTrimmed("INSERT INTO orders VALUES (1)");
    assert "INSERT INTO orders VALUES (1)"[..6] == "INSERT";
    assert Upper("INSERT")[0] == 'I';
  }

  /** Only a statement that literally begins with SELECT counts: a query
      opening with a common table expression is treated as a write. */
  lemma CommonTableExpressionNotSelect()
    ensures !IsSelect("WITH t AS (SELECT 1) SELECT * FROM t")
  {
    SelectTestOnTrimmed("WITH t AS (SELECT 1) SELECT * FROM t");
    assert "WITH t AS (SELECT 1) SELECT * FROM t"[..6] == "WITH t";
    assert Upper("WITH t")[0] == 'W';
  }

  // ---------------------------------------------------------------------
  // SQLManager lookups

  /** `SELECT * FROM customers WHERE customer_id = ?`. */
  function CustomerRows(db: Db, customerId: string): (r: Result<seq<Customer>>)
    ensures r.Fault? <==> db.Offline?
    ensures r.Ok? ==> forall c :: c in r.value <==> c in db.tables.customers && c.customerId == customerId
  {
    match db
    case Offline(e) => Fault(e)
    case Online(t) =>
      var rows := Matching(t.customers, CustomerKey, customerId);
      assert forall c :: c in rows <==> multiset(rows)[c] > 0;
      Ok(rows)
  }

  /** `get_order_status`: the order with the given id. */
  function OrderRows(db: Db, orderId: string): (r: Result<seq<Order>>)
    ensures r.Fault? <==> db.Offline?
    ensures r.Ok? ==> forall o :: o in r.value <==> o in db.tables.orders && o.orderId == orderId
  {
    match db
    case Offline(e) => Fault(e)
    case Online(t) =>
      var rows := Matching(t.orders, OrderKey, orderId);
      assert forall o :: o in rows <==> multiset(rows)[o] > 0;
      Ok(rows)
  }

  /** `get_customer_orders`: exactly the customer's orders, newest first. */
  function CustomerOrderRows(db: Db, customerId: string): (r: Result<seq<Order>>)
    ensures r.Fault? <==> db.Offline?
    ensures r.Ok? ==> multiset(r.value) == multiset(Matching(db.tables.orders, OrderOwner, customerId))
    ensures r.Ok? ==> forall o :: o in r.value <==> o in db.tables.orders && o.customerId == customerId
    ensures r.Ok? ==> NewestFirstOrdered(r.value, OrderStamp)
  {
    match db
    case Offline(e) => Fault(e)
    case Online(t) =>
      var rows := NewestFirst(Matching(t.orders, OrderOwner, customerId), OrderStamp);
      assert forall o :: o in rows <==> multiset(rows)[o] > 0;
      Ok(rows)
  }

  /** `SELECT * FROM products WHERE product_id = ?`. */
  function ProductRows(db: Db, productId: string): (r: Result<seq<Product>>)
    ensures r.Fault? <==> db.Offline?
    ensures r.Ok? ==> forall p :: p in r.value <==> p in db.tables.products && p.productId == productId
  {
    match db
    case Offline(e) => Fault(e)
    case Online(t) =>
      var rows := Matching(t.products, ProductKey, productId);
      assert forall p :: p in rows <==> multiset(rows)[p] > 0;
      Ok(rows)
  }

  /** `SELECT … FROM bank_accounts WHERE account_number = ?`. */
  function AccountRows(db: Db, accountNumber: string): (r: Result<seq<BankAccount>>)
    ensures r.Fault? <==> db.Offline?
    ensures r.Ok? ==> forall a :: a in r.value <==> a in db.tables.bankAccounts && a.accountNumber == accountNumber
  {
    match db
    case Offline(e) => Fault(e)
    case Online(t) =>
      var rows := Matching(t.bankAccounts, AccountKey, accountNumber);
      assert forall a :: a in rows <==> multiset(rows)[a] > 0;
      Ok(rows)
  }

  /** `get_account_balance`: the balance of the first matching row, which is
      `None` when that row's balance is NULL, or `None` when no row matches. */
  function AccountBalance(db: Db, accountNumber: string): (r: Result<Option<Cents>>)
    ensures r.Fault? <==> db.Offline?
    ensures db.Online? && !HasKey(db.tables.bankAccounts, AccountKey, accountNumber) ==> r == Ok(None)
    ensures db.Online? && HasKey(db.tables.bankAccounts, AccountKey, accountNumber) ==>
      exists a :: a in db.tables.bankAccounts && a.accountNumber == accountNumber && r == Ok(a.balance)
  {
    match AccountRows(db, accountNumber)
    case Fault(e) => Fault(e)
    case Ok(rows) =>
      if |rows| == 0 then
        assert forall i :: 0 <= i < |db.tables.bankAccounts| ==> db.tables.bankAccounts[i] !in rows;
        Ok(None)
      else
        assert rows[0] in rows;
        Ok(rows[0].balance)
  }

  /** `get_recent_transactions`: the account's transactions, newest first,
      cut to `limit` rows. */
  function RecentTransactionRows(db: Db, accountNumber: string, limit: nat): (r: Result<seq<Transaction>>)
    ensures r.Fault? <==> db.Offline?
    ensures r.Ok? ==> forall x :: x in r.value ==> x in db.tables.transactions && x.accountNumber == accountNumber
    ensures r.Ok? ==> |r.value| == Min(limit, |Matching(db.tables.transactions, TransactionAccount, accountNumber)|)
    ensures r.Ok? ==> NewestFirstOrdered(r.value, TransactionStamp)
    ensures r.Ok? ==> r.value == NewestFirst(Matching(db.tables.transactions, TransactionAccount, accountNumber), TransactionStamp)[..|r.value|]
  {
    match db
    case Offline(e) => Fault(e)
    case Online(t) =>
      var all := NewestFirst(Matching(t.transactions, TransactionAccount, accountNumber), TransactionStamp);
      var rows := Take(all, limit);
      forall x | x in rows
        ensures x in t.transactions && x.accountNumber == accountNumber
      {
        assert multiset(all)[x] > 0;
      }
      Ok(rows)
  }

  function Min(a: nat, b: nat): nat { if a <= b then a else b }

  /** Only the newest transactions are reported: any of the account's
      transactions left out by the limit is no newer than every reported one. */
  lemma RecentAreNewest(db: Db, accountNumber: string, limit: nat, j: int, i: int)
    requires db.Online?
    requires RecentTransactionRows(db, accountNumber, limit).Ok?
    requires var all := NewestFirst(Matching(db.tables.transactions, TransactionAccount, accountNumber), TransactionStamp);
      |RecentTransactionRows(db, accountNumber, limit).value| <= j < |all|
    requires 0 <= i < |RecentTransactionRows(db, accountNumber, limit).value|
    ensures LexLe(
      NewestFirst(Matching(db.tables.transactions, TransactionAccount, accountNumber), TransactionStamp)[j].createdAt,
      RecentTransactionRows(db, accountNumber, limit).value[i].createdAt)
  {
    var all := NewestFirst(Matching(db.tables.transactions, TransactionAccount, accountNumber), TransactionStamp);
    var rows := RecentTransactionRows(db, accountNumber, limit).value;
    assert rows[i] == all[i];
    assert TransactionStamp(all[j]) == all[j].createdAt;
  }

  /** `get_telecom_account`: the line with the given phone number. */
  function LineRows(db: Db, phoneNumber: string): (r: Result<seq<TelecomAccount>>)
    ensures r.Fault? <==> db.Offline?
    ensures r.Ok? ==> forall a :: a in r.value <==> a in db.tables.telecomAccounts && a.phoneNumber == phoneNumber
  {
    match db
    case Offline(e) => Fault(e)
    case Online(t) =>
      var rows := Matching(t.telecomAccounts, LineKey, phoneNumber);
      assert forall a :: a in rows <==> multiset(rows)[a] > 0;
      Ok(rows)
  }

  /** The two columns `get_usage_data` selects. */
  datatype Usage = Usage(dataUsageGb: Amount, monthlyCharge: Amount)

  /** `get_usage_data`: usage and charge of the line, one entry per matching row. */
  function UsageRows(db: Db, phoneNumber: string): (r: Result<seq<Usage>>)
    ensures r.Fault? <==> db.Offline?
    ensures r.Ok? ==> |r.value| == |LineRows(db, phoneNumber).value|
    ensures r.Ok? ==> forall i :: 0 <= i < |r.value| ==>
      r.value[i] == Usage(LineRows(db, phoneNumber).value[i].dataUsageGb, LineRows(db, phoneNumber).value[i].monthlyCharge)
  {
    match LineRows(db, phoneNumber)
    case Fault(e) => Fault(e)
    case Ok(rows) => Ok(seq(|rows|, i requires 0 <= i < |rows| => Usage(rows[i].dataUsageGb, rows[i].monthlyCharge)))
  }

  /** Every UNIQUE column makes its lookup return at most one row. */
  lemma LookupsAtMostOne(db: Db, k: string)
    requires db.Online? && Valid(db.tables)
    ensures |CustomerRows(db, k).value| <= 1
    ensures |OrderRows(db, k).value| <= 1
    ensures |ProductRows(db, k).value| <= 1
    ensures |AccountRows(db, k).value| <= 1
    ensures |LineRows(db, k).value| <= 1
  {
    var t := db.tables;
    UniqueLookup(t.customers, CustomerKey, k);
    UniqueLookup(t.orders, OrderKey, k);
    UniqueLookup(t.products, ProductKey, k);
    UniqueLookup(t.bankAccounts, AccountKey, k);
    UniqueLookup(t.telecomAccounts, LineKey, k);
  }

  // ---------------------------------------------------------------------
  // Round trips through the defaults

  /** An order inserted without a status reads back as 'processing'. */
  lemma DefaultOrderStatusReadBack(
    t: Tables, orderId: string, customerId: string, totalAmount: Amount, now: string)
    requires Valid(t)
    requires !HasKey(t.orders, OrderKey, orderId)
    ensures var o := NewOrder(orderId, customerId, None, Omitted, totalAmount, None, None, now);
      && InsertOrder(t, o).Ok?
      && OrderRows(Online(InsertOrder(t, o).value), orderId) == Ok([o])
      && o.status == Some("processing")
  {
    var o := NewOrder(orderId, customerId, None, Omitted, totalAmount, None, None, now);
    InsertThenLookup(t.orders, OrderKey, o, "orders.order_id");
  }

  /** An account opened with every default reads back with balance 0.00. */
  lemma DefaultBalanceReadBack(t: Tables, accountNumber: string, customerId: string, now: string)
    requires Valid(t)
    requires !HasKey(t.bankAccounts, AccountKey, accountNumber)
    ensures var a := NewBankAccount(accountNumber, customerId, Omitted, Omitted, Omitted, now);
      && InsertBankAccount(t, a).Ok?
      && AccountBalance(Online(InsertBankAccount(t, a).value), accountNumber) == Ok(Some(0))
  {
    var a := NewBankAccount(accountNumber, customerId, Omitted, Omitted, Omitted, now);
    InsertThenLookup(t.bankAccounts, AccountKey, a, "bank_accounts.account_number");
  }

  /** An account inserted with an explicit NULL balance reads back no
      balance at all, as if it were missing. */
  lemma NullBalanceReadBack(t: Tables, accountNumber: string, customerId: string, now: string)
    requires Valid(t)
    requires !HasKey(t.bankAccounts, AccountKey, accountNumber)
    ensures var a := NewBankAccount(accountNumber, customerId, Omitted, Named(None), Omitted, now);
      && InsertBankAccount(t, a).Ok?
      && AccountBalance(Online(InsertBankAccount(t, a).value), accountNumber) == Ok(None)
      && AccountRows(Online(InsertBankAccount(t, a).value), accountNumber) == Ok([a])
  {
    var a := NewBankAccount(accountNumber, customerId, Omitted, Named(None), Omitted, now);
    InsertThenLookup(t.bankAccounts, AccountKey, a, "bank_accounts.account_number");
  }

  /** Inserting an order whose id is already present fails with SQLite's
      constraint message and leaves nothing to read back twice. */
  lemma DuplicateOrderRejected(t: Tables, o: Order, p: Order)
    requires o.orderId == p.orderId
    requires InsertOrder(t, o).Ok?
    ensures InsertOrder(InsertOrder(t, o).value, p) == Fault("UNIQUE constraint failed: orders.order_id")
  {
    var rows := t.orders + [o];
    assert OrderKey(rows[|t.orders|]) == p.orderId;
  }
}
