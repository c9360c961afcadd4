/** The e-commerce crew's tools: order status, a customer's order list, the
    e-commerce knowledge search and product availability. Each reads the
    store or the search oracle and answers with text; a failing store or
    search is reported in the text, never raised. */
module EcommerceTools {
  import opened Text
  import opened Wrappers
  import opened Settings
  import opened Relation
  import opened Store
  import opened Knowledge

  // ---------------------------------------------------------------------
  // get_order_status

  const NoTracking := "Not assigned yet"

  /** `tracking_number or 'Not assigned yet'`: Python's `or` replaces a NULL
      and an empty number alike. */
  function TrackingText(t: Option<string>): (s: string)
    ensures t.Some? && t.value != "" ==> s == t.value
    ensures t.None? || t.value == "" ==> s == NoTracking
    ensures |s| > 0
  {
    match t
    case None => NoTracking
    case Some(n) => if n == "" then NoTracking else n
  }

  /** The line printed for a found order. */
  function StatusLine(orderId: string, o: Order): string {
    "Order " + orderId + ": Status is '" + Show(o.status) + "', Total: $" + o.totalAmount
      + ", Tracking: " + TrackingText(o.trackingNumber)
  }

  function OrderNotFound(orderId: string): string {
    "Order " + orderId + " not found. Please check the order ID."
  }

  const OrderStatusError := "Error retrieving order status: "

  /** `get_order_status`: the first matching order's line, the not-found
      line, or the store's error. */
  function GetOrderStatus(db: Db, orderId: string): (s: string)
    ensures db.Offline? ==> s == OrderStatusError + db.error
    ensures db.Online? && !HasKey(db.tables.orders, OrderKey, orderId) ==> s == OrderNotFound(orderId)
    ensures db.Online? && HasKey(db.tables.orders, OrderKey, orderId) ==>
      exists o :: o in db.tables.orders && o.orderId == orderId && s == StatusLine(orderId, o)
  {
    match OrderRows(db, orderId)
    case Fault(e) => OrderStatusError + e
    case Ok(rows) =>
      if |rows| == 0 then
        assert forall i :: 0 <= i < |db.tables.orders| ==> db.tables.orders[i] !in rows;
        OrderNotFound(orderId)
      else
        assert rows[0] in rows;
        StatusLine(orderId, rows[0])
  }

  /** The not-found line is printed exactly when the store is readable and
      holds no order with that id. */
  lemma OrderNotFoundIff(db: Db, orderId: string)
    ensures GetOrderStatus(db, orderId) == OrderNotFound(orderId)
      <==> db.Online? && !HasKey(db.tables.orders, OrderKey, orderId)
  {
    var s := GetOrderStatus(db, orderId);
    var k := |"Order " + orderId|;
    if db.Offline? {
      assert s[0] != OrderNotFound(orderId)[0];
    } else if HasKey(db.tables.orders, OrderKey, orderId) {
      var o :| o in db.tables.orders && o.orderId == orderId && s == StatusLine(orderId, o);
      assert s[k] == ':' && OrderNotFound(orderId)[k] == ' ';
    }
  }

  /** Under the UNIQUE order id the status line is that of the one order. */
  lemma OrderStatusOfUniqueRow(t: Tables, o: Order)
    requires Valid(t) && o in t.orders
    ensures GetOrderStatus(Online(t), o.orderId) == StatusLine(o.orderId, o)
  {
    var i :| 0 <= i < |t.orders| && t.orders[i] == o;
    UniqueLookup(t.orders, OrderKey, o.orderId);
  }

  /** An order whose tracking number is NULL or empty reads as not assigned. */
  lemma UnassignedTracking(orderId: string, o: Order)
    requires o.trackingNumber == None || o.trackingNumber == Some("")
    ensures StatusLine(orderId, o) == "Order " + orderId + ": Status is '" + Show(o.status) + "', Total: $"
      + o.totalAmount + ", Tracking: Not assigned yet"
  {
  }

  // ---------------------------------------------------------------------
  // get_customer_orders

  /** The line printed for each order of the list. */
  function OrderLine(o: Order): string {
    "Order " + o.orderId + ": " + Show(o.status) + " - $" + o.totalAmount
  }

  function OrderLines(rows: seq<Order>): (lines: seq<string>)
    ensures |lines| == |rows|
    ensures forall i :: 0 <= i < |rows| ==> lines[i] == OrderLine(rows[i])
  {
    seq(|rows|, i requires 0 <= i < |rows| => OrderLine(rows[i]))
  }

  const OrdersHeading := "Your orders:\n"
  const NoOrders := "No orders found for this customer."
  const OrdersError := "Error retrieving orders: "

  /** `get_customer_orders`: one line per order of the customer, newest
      first, under a heading; a fixed line when there are none. */
  function GetCustomerOrders(db: Db, customerId: string): (s: string)
    ensures db.Offline? ==> s == OrdersError + db.error
    ensures db.Online? && !HasKey(db.tables.orders, OrderOwner, customerId) ==> s == NoOrders
    ensures db.Online? && HasKey(db.tables.orders, OrderOwner, customerId) ==>
      exists rows: seq<Order> ::
        && |rows| > 0
        && multiset(rows) == multiset(Matching(db.tables.orders, OrderOwner, customerId))
        && NewestFirstOrdered(rows, OrderStamp)
        && s == OrdersHeading + Join(OrderLines(rows), "\n")
  {
    match CustomerOrderRows(db, customerId)
    case Fault(e) => OrdersError + e
    case Ok(rows) =>
      if |rows| == 0 then
        assert forall i :: 0 <= i < |db.tables.orders| ==> db.tables.orders[i] !in rows;
        NoOrders
      else
        assert rows[0] in rows;
        OrdersHeading + Join(OrderLines(rows), "\n")
  }

  /** The no-orders line is printed exactly when the store is readable and
      the customer has no order. */
  lemma NoOrdersIff(db: Db, customerId: string)
    ensures GetCustomerOrders(db, customerId) == NoOrders
      <==> db.Online? && !HasKey(db.tables.orders, OrderOwner, customerId)
  {
    var s := GetCustomerOrders(db, customerId);
    if db.Offline? {
      assert s[0] != NoOrders[0];
    } else if HasKey(db.tables.orders, OrderOwner, customerId) {
      assert s[0] != NoOrders[0];
    }
  }

  /** Every order of the customer is listed. */
  lemma EveryOrderListed(db: Db, customerId: string, o: Order)
    requires db.Online? && o in db.tables.orders && o.customerId == customerId
    ensures Contains(GetCustomerOrders(db, customerId), OrderLine(o))
  {
    var rows := CustomerOrderRows(db, customerId).value;
    assert o in rows;
    var j :| 0 <= j < |rows| && rows[j] == o;
    assert GetCustomerOrders(db, customerId) == OrdersHeading + Join(OrderLines(rows), "\n");
    ListingShowsLine(rows, j);
  }

  /** A listing shows the line of each of its rows. */
  lemma ListingShowsLine(rows: seq<Order>, j: int)
    requires 0 <= j < |rows|
    ensures Contains(OrdersHeading + Join(OrderLines(rows), "\n"), OrderLine(rows[j]))
  {
    var body := Join(OrderLines(rows), "\n");
    var s := OrdersHeading + body;
    JoinContainsPart(OrderLines(rows), "\n", j);
    assert s[|OrdersHeading|..|s|] == body;
    ContainsFromSlice(s, |OrdersHeading|, |s|, OrderLine(rows[j]));
  }

  // ---------------------------------------------------------------------
  // search_ecommerce_knowledge

  /** The number of documents each domain knowledge tool asks for. */
  const ToolResults: nat := 2

  const EcommerceWording := Wording(
    "Here's what I found: ",
    "No relevant information found in knowledge base.",
    "Error searching knowledge base: ")

  /** `search_ecommerce_knowledge`: the first query's documents from the
      e-commerce collection, two at most asked for. */
  function SearchEcommerceKnowledge(search: Search, query: string): (s: string)
    ensures var r := search(Ecommerce, query, ToolResults);
      && (r.Raised? ==> s == "Error searching knowledge base: " + r.error)
      && (!r.Raised? && !HasDocuments(r) ==> s == "No relevant information found in knowledge base.")
      && (HasDocuments(r) ==> s == "Here's what I found: " + Join(r.documents[0], "\n"))
  {
    SearchTool(search(Ecommerce, query, ToolResults), EcommerceWording)
  }

  /** The answer opens with "Here's what I found: " exactly when the search
      gave documents to read. */
  lemma EcommerceFoundIff(search: Search, query: string)
    ensures StartsWith(SearchEcommerceKnowledge(search, query), EcommerceWording.found)
      <==> HasDocuments(search(Ecommerce, query, ToolResults))
  {
    var w := EcommerceWording;
    assert w.none[20] != w.found[20];
    FoundPrefixIff(search(Ecommerce, query, ToolResults), EcommerceWording);
  }

  // ---------------------------------------------------------------------
  // check_product_availability

  /** The tool's statement, written as its leading keyword and the rest. */
  const ProductQuery := "SELECT" + " * FROM products WHERE product_id = ?"

  /** The tool's statement is a SELECT, so `execute_query` hands back the
      fetched rows. */
  lemma ProductQueryIsSelect(rows: seq<Product>)
    ensures ExecuteQuery(ProductQuery, rows) == Frame(rows)
  {
    SelectStatement(" * FROM products WHERE product_id = ?");
  }

  /** "In Stock" for a positive quantity, otherwise "Out of Stock". */
  function Availability(quantity: int): (s: string)
    ensures s == "In Stock" <==> quantity > 0
    ensures s == "Out of Stock" <==> quantity <= 0
  {
    if quantity > 0 then "In Stock" else "Out of Stock"
  }

  /** The line printed for a found product with a stored quantity. */
  function ProductLine(p: Product, quantity: int): string {
    "Product: " + p.name + ", Price: $" + p.price + ", Status: " + Availability(quantity)
      + " (" + IntText(quantity) + " units)"
  }

  function ProductNotFound(productId: string): string {
    "Product " + productId + " not found."
  }

  const ProductError := "Error checking product availability: "

  /** The `TypeError` message of comparing a NULL quantity with 0. */
  const NullComparison := "'>' not supported between instances of 'NoneType' and 'int'"

  /** The answer for a found product: its line, or the handler's error text
      when the quantity is NULL and the `> 0` test raises. */
  function ProductReply(p: Product): (s: string)
    ensures p.stockQuantity.Some? ==> s == ProductLine(p, p.stockQuantity.value)
    ensures p.stockQuantity.None? ==> s == ProductError + NullComparison
  {
    match p.stockQuantity
    case Some(q) => ProductLine(p, q)
    case None => ProductError + NullComparison
  }

  /** `check_product_availability`: the first matching product's line, the
      not-found line, or the store's error. */
  function CheckProductAvailability(db: Db, productId: string): (s: string)
    ensures db.Offline? ==> s == ProductError + db.error
    ensures db.Online? && !HasKey(db.tables.products, ProductKey, productId) ==> s == ProductNotFound(productId)
    ensures db.Online? && HasKey(db.tables.products, ProductKey, productId) ==>
      exists p :: p in db.tables.products && p.productId == productId && s == ProductReply(p)
  {
    match ProductRows(db, productId)
    case Fault(e) => ProductError + e
    case Ok(rows) =>
      if |rows| == 0 then
        assert forall i :: 0 <= i < |db.tables.products| ==> db.tables.products[i] !in rows;
        ProductNotFound(productId)
      else
        assert rows[0] in rows;
        ProductReply(rows[0])
  }

  /** Under the UNIQUE product id the tool prints the product's own line. */
  lemma ProductOfUniqueRow(t: Tables, p: Product)
    requires Valid(t) && p in t.products
    ensures CheckProductAvailability(Online(t), p.productId) == ProductReply(p)
  {
    var i :| 0 <= i < |t.products| && t.products[i] == p;
    UniqueLookup(t.products, ProductKey, p.productId);
  }

  /** The status field of a product's answer reads "In Stock" exactly when
      the stored quantity is positive; a NULL quantity gives the error text
      in place of a status. */
  lemma StockField(p: Product)
    ensures var s := ProductReply(p);
      var k := |"Product: " + p.name + ", Price: $" + p.price + ", Status: "|;
      && (p.stockQuantity.Some? ==> k + 8 <= |s| && (s[k..k + 8] == "In Stock" <==> p.stockQuantity.value > 0))
      && (p.stockQuantity.None? ==> StartsWith(s, ProductError))
  {
    var head := "Product: " + p.name + ", Price: $" + p.price + ", Status: ";
    var s := ProductReply(p);
    if p.stockQuantity.Some? {
      var q := p.stockQuantity.value;
      var a := Availability(q);
      var tail := " (" + IntText(q) + " units)";
      assert s == head + a + tail;
      var k := |head|;
      assert s[k..k + 8] == a[..8];
      if q <= 0 {
        assert a[..8][0] == 'O';
      }
    } else {
      assert s[..|ProductError|] == ProductError;
    }
  }

  /** A product whose quantity is NULL makes the tool answer with the
      comparison error rather than a status. */
  lemma NullStockRaises(p: Product)
    requires p.stockQuantity.None?
    ensures CheckProductAvailability(Online(EmptyTables.(products := [p])), p.productId)
      == ProductError + NullComparison
  {
    var t := EmptyTables.(products := [p]);
    assert ProductKey(t.products[0]) == p.productId;
    ProductOfUniqueRow(t, p);
  }
}
