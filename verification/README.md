# Multi-agent customer support: the deterministic core in Dafny

The system is a customer-support web app with three business domains:
e-commerce, banking and telecom. A user picks a domain and fills in a details
form, then chats. Each message goes to a router crew and then to the crew of
the chosen domain. That crew hands the message to one of its two specialist
agents, and the agent answers with the help of tools. The tools read an SQLite
store and a vector knowledge base.

Language-model calls, the clock, the store and the knowledge search are
passed in as parameters. What remains is a set of decision rules, and this
project models them and proves them:

- **Settings** (`settings.dfy`): the domain keys and the required fields of
  each domain's details form.
- **Router** (`router.dfy`): how a classifier completion becomes a domain,
  and the routing record built from it.
- **Crews** (`crews.dfy`, `crew_examples.dfy`): the three keyword selectors
  that choose a specialist.
- **Store** (`store.dfy`, `relation.dfy`):
  - the six tables, with their UNIQUE keys and column defaults; a column
    with a DEFAULT but no NOT NULL can still hold NULL;
  - the SELECT test of `execute_query`;
  - the lookups, as filters over in-memory tables, ordered newest first and
    limited where the SQL says so.
- **Knowledge** (`knowledge.dfy`): the search oracle, and the shared shape of
  the three domain knowledge tools.
- **Tools** (`common_tools.dfy`, `email.dfy`, `clock.dfy`,
  `ecommerce_tools.dfy`, `banking_tools.dfy`, `telecom_tools.dfy`): every
  tool, each as a total function that returns its message text.
  - A failing store or search becomes the tool's error text.
  - The e-mail pattern is written out by hand.
  - The escalation timestamp is an input.
  - The balance is held in hundredths, so that `:,.2f` can be written out and
    read back.
- **Dispatch** (`dispatch.dfy`): `get_agent_response`.
  - It routes the query first.
  - It then runs the crew of the domain the *user* chose.
  - That crew selects an agent over the text "Customer Query: …\nRouting
    Analysis: …".
  - Every raised exception becomes the apology text.
- **Session** (`session.dfy`): the four session values and the screen they
  select. The actions are choosing a domain, submitting the form, sending a
  chat message, Reset Chat and Back to Home. An invariant holds over any
  sequence of actions.

`wrappers.dfy` (Option, Result) and `text.dfy` (ASCII case mapping, Python
`strip`, substring search, `join`, decimal printing) hold shared definitions.

Where the system's own description and the code disagree, the model follows
the code:

- The phone check of `validate_user_input` is described as accepting ten
  digits or more. As written, it always answers with a validation error (see
  Findings).
- Escalation ids are described as unique. Two escalations in the same second
  share one id.

## Model

| member | source | states |
|---|---|---|
| Settings.ParseLabel | config/settings.py:18-37 | Exactly the three keys "ecommerce", "banking" and "telecom" name a domain, and each names its own. |
| Settings.RequiredFields | config/settings.py:40-44 | Each domain asks for three distinct fields, the first being "name". |
| Settings.TablesCoverDomains | config/settings.py:18-44 | `DOMAINS` and `USER_INFO_FIELDS` are keyed by exactly the three domain keys. |
| Settings.RequiredFieldsPerDomain | config/settings.py:41-43 | The second and third fields: email and order_id; account_number and phone; phone_number and account_id. |
| Router.ClassifyDomain | agents/router_crew.py:81-90 | The result is banking iff the lower-cased completion contains "banking" but not "ecommerce". It is telecom iff it contains "telecom" and neither other label. Otherwise it is e-commerce, including the fallback. |
| Router.ScanValidDomains | agents/router_crew.py:84-90 | The ordered scan over the label list returns the first label present, else e-commerce. |
| Text.StripKeepsContains | agents/router_crew.py:81 | Stripping surrounding whitespace never changes whether a label occurs. |
| Router.RouteCustomer | agents/router_crew.py:130-144 | The routing record carries the classified domain and the intent text unchanged. Confidence is always high. The reason text reads back as the same domain. |
| Router.GetDomainFromQuery | agents/router_crew.py:146-148 | The result is the domain `route_customer` reports for the same completion, whatever the intent. |
| Router.EcommerceWinsAnywhere | agents/router_crew.py:84-87 | Any text containing "ecommerce" is e-commerce, wherever the other labels stand. |
| Router.BankingBeatsTelecom | agents/router_crew.py:84-87 | A text naming both banking and telecom is never classified as telecom. |
| Router.ClassifyIdempotent | agents/router_crew.py:84-87 | Classifying a domain's own key gives that domain back. |
| Router.FallbackExamples | agents/router_crew.py:90 | "", "retail" and "e-commerce" fall back to e-commerce. |
| Router.PaddedLabelExample | agents/router_crew.py:81-87 | "  Banking\n" is banking. |
| Router.ListOrderExample | agents/router_crew.py:84-87 | "telecom, not banking" is banking: list order beats text order. |
| Crews.AnyKeywordMeansMentions | agents/ecommerce_crew.py:62 | The left-to-right `any` scan finds a keyword exactly when some keyword occurs. |
| Crews.EcommerceBestAgent | agents/ecommerce_crew.py:58-65 | The order specialist is chosen iff the lower-cased query contains order, tracking, shipment, delivery or status. Otherwise the customer-service agent is chosen. |
| Crews.BankingBestAgent | agents/banking_crew.py:60-67 | The transaction analyst is chosen iff the lower-cased query contains transaction, transfer, payment, history or charge. Otherwise the account specialist is chosen. |
| Crews.TelecomBestAgent | agents/telecom_crew.py:60-67 | Technical support is chosen iff the lower-cased query contains network, signal, connection, outage, technical or slow. Otherwise the billing specialist is chosen. |
| Crews.DetermineBestAgent | agents/ecommerce_crew.py:58-65 | Every selector returns one of its own crew's two agents: the keyword agent iff a keyword occurs, the default agent otherwise. |
| Crews.KeywordsAreWords | agents/telecom_crew.py:62 | Every keyword is a non-empty lower-case word, with no space and no line break. |
| Crews.SelectionIgnoresCase | agents/banking_crew.py:64 | Selecting over a query and over its lower-cased form gives the same agent. |
| Crews.SelectionMonotone | agents/telecom_crew.py:64 | A query that selects the keyword agent still selects it inside any longer text. |
| CrewExamples.SubstringNotWord | agents/ecommerce_crew.py:60-63 | "borders", "reorder" and "Where is my ORDER?" all reach the order specialist. |
| CrewExamples.RefundGoesToService | agents/ecommerce_crew.py:64-65 | "Can I get a refund?" reaches the customer-service agent. |
| CrewExamples.ChargedGoesToAnalyst | agents/banking_crew.py:62-65 | "Why was I charged $25 ATM fee?" reaches the transaction analyst, because "charged" contains "charge". |
| CrewExamples.BalanceGoesToAccountSpecialist | agents/banking_crew.py:66-67 | "What's my balance for account ACC001?" reaches the account specialist. |
| CrewExamples.SlowGoesToTechnicalSupport | agents/telecom_crew.py:62-65 | "My internet is very slow today" reaches technical support. |
| CrewExamples.UsageGoesToBilling | agents/telecom_crew.py:66-67 | "How much data have I used on 555-0103?" reaches billing. |
| Relation.Matching | database/sql_manager.py:136-138 | A `WHERE key = ?` filter returns exactly the rows with that key, each as often as in the table. |
| Relation.MatchingEmptyIff | database/sql_manager.py:125-129 | The filter is empty exactly when no row carries the key. |
| Relation.UniqueLookup | database/sql_manager.py:33 | Under a UNIQUE key a lookup returns at most one row, and that row is the one carrying the key. |
| Relation.Insert | database/sql_manager.py:20 | An INSERT fails with SQLite's UNIQUE message iff the key is taken. Otherwise it appends the row and keeps the keys unique. |
| Relation.InsertThenLookup | database/sql_manager.py:33 | After an accepted insert, a lookup by its key returns exactly the new row. |
| Relation.Without | database/sample_data.py:46 | The rows left after deleting a key: none of them holds it, and every row of another key stays, as often as before. |
| Relation.Replace | database/sample_data.py:46 | `INSERT OR REPLACE` never fails on the key. The new row ends the table, it is the only row with its key, every row of another key stays, and a UNIQUE key stays unique. |
| Relation.ReplaceThenLookup | database/sample_data.py:46 | After a replace, the key looks up exactly the new row, whatever the table held before. |
| Relation.ReplaceKeepsOthers | database/sample_data.py:46 | A replace leaves the lookup of every other key as it was, order included. |
| Relation.ReplaceWhenFree | database/sample_data.py:46 | On a free key, a replace gives the same table as the plain insert. |
| Relation.ReplaceIdempotent | database/sample_data.py:46 | Replacing a row by itself a second time gives the same table as doing it once. |
| Relation.NewestFirst | database/sql_manager.py:141 | `ORDER BY created_at DESC` returns a permutation of the rows, ordered by timestamp text, newest first. |
| Store.NewOrder | database/sql_manager.py:31-41 | An order inserted without naming its status has status 'processing'. A named status is stored as given, NULL included. |
| Store.NewProduct | database/sql_manager.py:46-53 | A product inserted without naming its stock quantity has quantity 0. A named quantity is stored as given, NULL included. |
| Store.NewBankAccount | database/sql_manager.py:59-67 | An account inserted without naming those columns is a 'checking' account with balance 0 and status 'active'. Each named column is stored as given, NULL included. |
| Store.NewTelecomAccount | database/sql_manager.py:86-96 | A line inserted without usage has usage 0, and without naming a status has status 'active'. A named status is stored as given, NULL included. |
| Store.InsertOrder | database/sql_manager.py:33 | An order is refused iff its id is taken. An accepted order keeps the tables valid. |
| Store.InsertBankAccount | database/sql_manager.py:61 | An account is refused iff its number is taken. An accepted account keeps the tables valid. |
| Store.ReplaceOrder | database/sample_data.py:45-49 | The loader's order statement changes only the orders and keeps the tables valid. Afterwards the id looks up exactly the loaded order. On a free id it equals the plain insert. |
| Store.ReplaceBankAccount | database/sample_data.py:58-62 | The loader's account statement changes only the accounts and keeps the tables valid. Afterwards the number looks up exactly the loaded account. On a free number it equals the plain insert. |
| Store.ReloadOrderIdempotent | database/sample_data.py:45-49 | Loading the same order twice leaves the tables as loading it once. |
| Store.ReplaceOrderKeepsOthers | database/sample_data.py:45-49 | Loading an order never changes what another order id looks up. |
| Store.ExecuteQuery | database/sql_manager.py:115-133 | Rows come back iff the stripped, upper-cased statement starts with SELECT. Any other statement is committed. |
| Store.IsSelectIgnoresCase | database/sql_manager.py:125 | The SELECT test ignores letter case. |
| Store.SelectTestOnTrimmed | database/sql_manager.py:125 | On a statement without surrounding whitespace, the test compares its first six characters, upper-cased, with SELECT. |
| Store.SelectStatement | database/sql_manager.py:125 | A statement written as SELECT followed by a non-empty rest not ending in whitespace passes the test. |
| Store.SelectTestSkipsLeadingSpace | database/sql_manager.py:125 | Leading whitespace does not change the test. |
| Store.LowerCaseSelectDetected | database/sql_manager.py:125 | "select * from orders" is a SELECT. |
| Store.InsertNotSelect | database/sql_manager.py:125-133 | An INSERT statement is committed, not fetched. |
| Store.CommonTableExpressionNotSelect | database/sql_manager.py:125 | A `WITH … SELECT` query is not treated as a SELECT. |
| Store.CustomerRows | tools/common_tools.py:11-12 | The result is the customers with that id, or the store's fault. |
| Store.OrderRows | database/sql_manager.py:136-138 | The result is the orders with that id, or the store's fault. |
| Store.CustomerOrderRows | database/sql_manager.py:140-142 | The result is exactly the customer's orders, as a permutation of the matching rows, newest first. |
| Store.ProductRows | tools/ecommerce_tools.py:50-51 | The result is the products with that id, or the store's fault. |
| Store.AccountRows | tools/banking_tools.py:49-50 | The result is the accounts with that number, or the store's fault. |
| Store.AccountBalance | database/sql_manager.py:145-148 | The result is None when no account has that number. Otherwise it is the balance of a matching account, which is None when that balance is NULL. |
| Store.RecentTransactionRows | database/sql_manager.py:150-154 | The result is only the account's transactions, newest first: the first min(limit, count) of them in that order. |
| Store.RecentAreNewest | database/sql_manager.py:150-154 | A transaction of the account left out by the limit is no newer than any one reported. |
| Store.LineRows | database/sql_manager.py:157-159 | The result is the lines with that phone number, or the store's fault. |
| Store.UsageRows | database/sql_manager.py:161-163 | The result is usage and charge of each matching line, one entry per line. |
| Store.LookupsAtMostOne | database/sql_manager.py:20-88 | In valid tables, every lookup by a UNIQUE column returns at most one row. |
| Store.DefaultOrderStatusReadBack | database/sql_manager.py:36 | An order inserted without a status reads back as 'processing'. |
| Store.DefaultBalanceReadBack | database/sql_manager.py:64 | An account inserted with every default reads back a balance of 0.00. |
| Store.NullBalanceReadBack | database/sql_manager.py:64 | An account inserted with an explicit NULL balance is found by number, yet its balance reads back as None. |
| Store.DuplicateOrderRejected | database/sql_manager.py:33 | A second order with the same id fails with "UNIQUE constraint failed: orders.order_id". |
| Knowledge.FirstDocuments | tools/banking_tools.py:37-38 | The result is the documents of the first query text when the reply has any, and nothing otherwise. |
| Knowledge.SearchTool | tools/ecommerce_tools.py:36-44 | A raised search gives the error text. A reply without documents gives the fixed no-result line. Documents give the found prefix followed by the documents joined by newlines. |
| Knowledge.EmptyHitListKeepsPrefix | tools/ecommerce_tools.py:38-40 | A reply holding one empty document list still prints the found prefix. |
| Knowledge.FoundPrefixIff | tools/telecom_tools.py:36-40 | When the three wordings open differently, the answer starts with the found prefix iff the reply had documents. |
| CommonTools.GetCustomerInfo | tools/common_tools.py:8-19 | The result is the store's error, "Customer {id} not found.", or the line of a customer with that id. |
| CommonTools.CustomerInfoOfUniqueRow | tools/common_tools.py:11-15 | Under unique ids, the line printed is that of the customer with the id. |
| CommonTools.NullFieldsPrintNone | tools/common_tools.py:15 | A NULL e-mail or phone prints as "None", and an empty one prints as nothing. |
| CommonTools.CollectHits | tools/common_tools.py:25-31 | The loop fails iff some one-result search raises, and then with the first error. Otherwise the hits are every domain's first-query documents laid end to end, in domain order and in the order each search gave them. |
| CommonTools.SearchGeneralKnowledge | tools/common_tools.py:21-38 | The first search that raises, in the order e-commerce, banking, telecom, gives its error after "Error searching knowledge base: ". Without one, the fixed no-result message comes back iff no domain offers a document. Otherwise the answer is "General information found: " followed by the first two of the e-commerce, banking and telecom documents, in that order, joined by " \| ". |
| CommonTools.GeneralHits | tools/common_tools.py:26-31 | Over the three domains, the loop stops at the first raising search with its error, and otherwise collects the e-commerce, banking and telecom documents in that order. |
| CommonTools.HitsUseOneResult | tools/common_tools.py:29 | Two search oracles that agree on one-result searches collect the same hits. |
| CommonTools.GeneralSearchUsesOneResult | tools/common_tools.py:29 | The general search depends only on one-result searches. |
| CommonTools.TelecomHitDropped | tools/common_tools.py:28-34 | With one hit each from e-commerce and banking, the telecom hit is not shown. |
| CommonTools.NoHitsMessage | tools/common_tools.py:33-36 | With no document and no fault, the result is "No relevant information found in knowledge base.". |
| CommonTools.ValidateUserInput | tools/common_tools.py:72-101 | Email follows the pattern. Phone always gives "Validation error: " and the unbound-name message. An order id is valid iff it starts with "ORD" and has six characters at least. Any other format is unknown. |
| CommonTools.DigitsOf | tools/common_tools.py:85 | Cleaning keeps every ASCII digit of the text, as often as it occurs, and nothing else. An all-digit text is kept as it is. |
| CommonTools.DigitsOfAppend | tools/common_tools.py:85 | Cleaning works piece by piece. |
| CommonTools.ValidateUserInputIntended | tools/common_tools.py:83-89 | A phone is valid iff it has ten digits or more. The other formats behave as written. |
| CommonTools.PhoneBranchCounterexample | tools/common_tools.py:76-101 | "555-123-4567" gets a validation error as written and is valid under the intended rule. |
| CommonTools.OrderIdExamples | tools/common_tools.py:91-95 | "ORD001" is valid. "ORD12", "ord123" and "XYZ123" are not. |
| CommonTools.BusinessHours | tools/common_tools.py:107-118 | The result is open iff weekday < 5 and 9 ≤ hour < 18, closed on other weekday hours, and the weekend notice iff weekday ≥ 5. |
| CommonTools.OpenHoursPerDay | tools/common_tools.py:111-114 | A weekday has nine open hours and a weekend day none. |
| CommonTools.EscalationId | tools/common_tools.py:128 | From year 1000 on, the id is "ESC_" followed by a 15-character stamp. |
| CommonTools.EscalateToHuman | tools/common_tools.py:124-139 | The notice opens with the escalation lead, the id and the priority. |
| CommonTools.DefaultPriorityNotice | tools/common_tools.py:124-139 | A call that leaves the priority out is escalated as "normal", and the notice reads that priority back next to its id. |
| CommonTools.EscalationIgnoresIssueAndCustomer | tools/common_tools.py:131-139 | The description and the customer id never reach the notice. |
| CommonTools.EscalationWindowFixed | tools/common_tools.py:139 | Every notice ends with the same 2-4 hour contact window, whatever the priority. |
| CommonTools.EscalationRoundTrip | tools/common_tools.py:128-139 | The notice reads back into its id and priority, and the id reads back into the second it was raised in. |
| CommonTools.SameSecondSameEscalationId | tools/common_tools.py:128 | Two escalations within one second share their id. |
| Clock.Year | tools/common_tools.py:128 | `%Y` renders a year from 1000 on as four digits. |
| Clock.Stamp | tools/common_tools.py:128 | The stamp has 15 characters with "_" at position 8, from year 1000 on. |
| Clock.StampRoundTrip | tools/common_tools.py:128 | The stamp parses back into year, month, day, hour, minute and second. |
| Clock.SameSecondSameStamp | tools/common_tools.py:128 | Times that differ only below the second give the same stamp. |
| Clock.StampInjective | tools/common_tools.py:128 | Different seconds from year 1000 on give different stamps. |
| EmailPattern.CheckEmail | tools/common_tools.py:77-78 | The decision is true iff the text splits at its first "@" and last "." into the three parts the pattern allows. |
| EmailPattern.FirstAtLastDot | tools/common_tools.py:77 | The pattern matches some split iff it matches at the first "@" and the last ".". |
| EmailPattern.ShapeFixesSplit | tools/common_tools.py:77 | Any split that fits the pattern is the one at the first "@" and the last ".". |
| EmailPattern.Accepts | tools/common_tools.py:77-78 | `re.match` is truthy iff the whole text fits the pattern, or the text minus one trailing newline does. |
| EmailPattern.PlainAddressAccepted | tools/common_tools.py:77-79 | "user@example.com" is accepted. |
| EmailPattern.NoAtRejected | tools/common_tools.py:77-81 | "notanemail" is rejected. |
| EmailPattern.DoubleDotAccepted | tools/common_tools.py:77 | "a@b..cc" is accepted: the host may hold consecutive dots. |
| EmailPattern.TrailingNewlineAccepted | tools/common_tools.py:77-78 | "user@example.com\n" is accepted, because `$` lets one trailing newline through. |
| EmailPattern.DotlessHostRejected | tools/common_tools.py:77 | "user@localhost" is rejected. |
| EcommerceTools.TrackingText | tools/ecommerce_tools.py:12 | A NULL or empty tracking number prints as "Not assigned yet". Any other prints as itself. |
| EcommerceTools.GetOrderStatus | tools/ecommerce_tools.py:6-16 | The result is the store's error, the not-found line when no order has the id, or the line of an order with that id. |
| EcommerceTools.OrderNotFoundIff | tools/ecommerce_tools.py:13-14 | The not-found line appears iff the store is readable and no order has the id. |
| EcommerceTools.OrderStatusOfUniqueRow | tools/ecommerce_tools.py:9-12 | Under unique ids, the line is that of the order with the id. |
| EcommerceTools.UnassignedTracking | tools/ecommerce_tools.py:12 | An order with no tracking number reports "Tracking: Not assigned yet". |
| EcommerceTools.GetCustomerOrders | tools/ecommerce_tools.py:19-31 | The result is the error, the no-orders line iff the customer has no order, or the heading followed by one line per order, over a permutation of the customer's orders, newest first. |
| EcommerceTools.NoOrdersIff | tools/ecommerce_tools.py:23-29 | The no-orders line appears iff the store is readable and the customer has no order. |
| EcommerceTools.EveryOrderListed | tools/ecommerce_tools.py:24-27 | Each of the customer's orders has its line in the listing. |
| EcommerceTools.SearchEcommerceKnowledge | tools/ecommerce_tools.py:34-44 | The tool asks the e-commerce collection for two results and words the answer as its found, none and error lines. |
| EcommerceTools.EcommerceFoundIff | tools/ecommerce_tools.py:38-42 | The answer starts with "Here's what I found: " iff the search gave documents. |
| EcommerceTools.ProductQueryIsSelect | tools/ecommerce_tools.py:50-51 | The product statement is a SELECT, so its rows come back. |
| EcommerceTools.Availability | tools/ecommerce_tools.py:54 | The text is "In Stock" iff the quantity is positive, and "Out of Stock" otherwise. |
| EcommerceTools.ProductReply | tools/ecommerce_tools.py:53-59 | A found product with a quantity gives its line. A NULL quantity makes the `> 0` test raise, and the answer is the handler's text with the comparison error. |
| EcommerceTools.CheckProductAvailability | tools/ecommerce_tools.py:47-59 | The result is the error, "Product {id} not found." when no product has the id, or the answer for a product with that id. |
| EcommerceTools.ProductOfUniqueRow | tools/ecommerce_tools.py:51-55 | Under unique ids, the line is that of the product with the id. |
| EcommerceTools.StockField | tools/ecommerce_tools.py:54-59 | With a stored quantity, the status field reads "In Stock" iff the quantity is positive. With a NULL quantity, the answer is an error text instead. |
| EcommerceTools.NullStockRaises | tools/ecommerce_tools.py:54-59 | A product whose quantity is NULL gets "Error checking product availability: '>' not supported between instances of 'NoneType' and 'int'". |
| BankingTools.MoneyText | tools/banking_tools.py:11 | `:,.2f` on hundredths: two decimals after a ".", and a leading "-" iff the amount is negative. |
| BankingTools.Grouped | tools/banking_tools.py:11 | The integer part starts with a digit; counting from the end every fourth character is a comma and every other one a digit, so the first group has one to three digits and every later group exactly three. |
| BankingTools.GroupedDigits | tools/banking_tools.py:11 | Removing the thousands commas gives the plain decimal number. |
| BankingTools.MoneyRoundTrip | tools/banking_tools.py:11 | Every printed balance reads back as the same amount. |
| BankingTools.GroupedMoneyExample | tools/banking_tools.py:11 | 1500.50 prints as "1,500.50". |
| BankingTools.NegativeMoneyExample | tools/banking_tools.py:11 | -0.05 prints as "-0.05". |
| BankingTools.GetAccountBalance | tools/banking_tools.py:6-15 | The result is the error, the not-found line when no account has the number, or, for a matching account, its balance line or the not-found line when its balance is NULL. |
| BankingTools.AccountMissingIff | tools/banking_tools.py:10-13 | The not-found line needs a readable store and appears for every unknown number. Under unique numbers it appears iff no account with the number has a balance. |
| BankingTools.BalanceReadsBack | tools/banking_tools.py:9-13 | Under unique numbers, the balance line reads back as the account's own balance, and a NULL balance gives the not-found line. |
| BankingTools.GetRecentTransactions | tools/banking_tools.py:18-30 | The result is the error, the none line when the account has no transaction, or the heading followed by one line each for the account's min(5, count) newest transactions, newest first. |
| BankingTools.NoTransactionsIff | tools/banking_tools.py:22-28 | The none line appears iff the store is readable and the account has no transaction. |
| BankingTools.FewTransactionsAllListed | tools/banking_tools.py:21-26 | With five transactions or fewer, every one is listed. |
| BankingTools.SearchBankingKnowledge | tools/banking_tools.py:33-43 | The tool asks the banking collection for two results and words the answer as its found, none and error lines. |
| BankingTools.BankingFoundIff | tools/banking_tools.py:37-41 | The answer starts with "Banking information: " iff the search gave documents. |
| BankingTools.AccountStatusQueryIsSelect | tools/banking_tools.py:49-50 | The status statement is a SELECT. |
| BankingTools.CheckAccountStatus | tools/banking_tools.py:46-57 | The result is the error, "Account not found." when no account has the number, or the type, status and opening date of a matching account. A NULL type or status prints as "None". |
| BankingTools.StatusMissingIff | tools/banking_tools.py:51-55 | "Account not found." appears iff the store is readable and the number is unknown. |
| BankingTools.BalanceAndStatusAgree | tools/banking_tools.py:9-55 | Every number the status tool misses is missing for the balance tool too, with a different line. Under unique numbers, the balance tool misses exactly those numbers and the accounts whose balance is NULL. |
| BankingTools.NullBalanceReportedMissing | tools/banking_tools.py:9-13 | An account whose balance is NULL is reported missing by the balance tool, while the status tool finds it. |
| TelecomTools.GetTelecomAccountInfo | tools/telecom_tools.py:6-16 | The result is the error, the not-in-system line when the number is unknown, or the plan, charge and status of a matching line. |
| TelecomTools.NotInSystemIff | tools/telecom_tools.py:10-14 | The not-in-system line appears iff the store is readable and the number is unknown. |
| TelecomTools.InfoOfUniqueLine | tools/telecom_tools.py:9-12 | Under unique numbers, the line printed is the one with that number. |
| TelecomTools.GetDataUsage | tools/telecom_tools.py:19-29 | The result is the error, "Phone number not found." when the number is unknown, or usage and charge of a matching line. |
| TelecomTools.UsageMissingIff | tools/telecom_tools.py:23-27 | The not-found line appears iff the store is readable and the number is unknown. |
| TelecomTools.UsageOfUniqueLine | tools/telecom_tools.py:22-25 | Under unique numbers, the usage is that of the line with the number. |
| TelecomTools.SearchTelecomKnowledge | tools/telecom_tools.py:32-42 | The tool asks the telecom collection for two results and words the answer as its found, none and error lines. |
| TelecomTools.TelecomFoundIff | tools/telecom_tools.py:36-40 | The answer starts with "Telecom information: " iff the search gave documents. |
| TelecomTools.CheckNetworkStatus | tools/telecom_tools.py:45-55 | The result is the error, the not-in-network line when the number is unknown, or the fixed healthy report. |
| TelecomTools.NotInNetworkIff | tools/telecom_tools.py:50-53 | The not-in-network line appears iff the store is readable and the number is unknown. |
| TelecomTools.NetworkIgnoresAccount | tools/telecom_tools.py:49-51 | Two stores that both know the number, or both do not, give the same report. |
| TelecomTools.SuspendedLineReportedActive | tools/telecom_tools.py:12-51 | A suspended line is reported "Active and operational", while the account tool shows it suspended. |
| TelecomTools.LookupsAgree | tools/telecom_tools.py:9-53 | The three number lookups agree on which numbers are unknown. |
| Dispatch.ChosenSpecialist | ui/components.py:397-412 | No agent is chosen for an unknown key. Otherwise the agent belongs to the chosen domain's crew, and it is the keyword agent iff the query or the intent analysis mentions a keyword. |
| Dispatch.GetAgentResponse | ui/components.py:382-416 | A failing classifier or intent call gives the apology. An unknown domain gives "Invalid domain selected.". Otherwise the chosen agent runs on the enhanced text and the customer's details, and its reply or its apology is returned. |
| Dispatch.DispatchIgnoresRecommendation | ui/components.py:390-394 | Any classifier output gives the same reply: the recommended domain is not used. |
| Dispatch.RecommendationOverruled | ui/components.py:390-405 | A "banking" recommendation on the telecom screen is answered by a telecom agent. |
| Dispatch.InvalidDomainIff | ui/components.py:397-407 | "Invalid domain selected." appears iff both router calls complete and the key is unknown, unless a model writes that text itself. |
| Dispatch.ApologyIsNotInvalidDomain | ui/components.py:407-416 | The apology never equals the invalid-domain reply. |
| Dispatch.EnhancedMentions | ui/components.py:410-412 | A crew's keyword occurs in the enhanced text iff it occurs in the query or in the intent analysis. The labels and separators add none. |
| Dispatch.KeywordInEnhancedContext | ui/components.py:410 | A keyword without space or newline, absent from the labels, occurs in the lower-cased enhanced text iff it occurs in the query or in the intent. |
| Dispatch.LabelsLackKeywords | ui/components.py:410 | No keyword of any crew occurs in "customer query:" or "routing analysis:". |
| Dispatch.IntentAloneSelects | ui/components.py:410-412 | An intent analysis that mentions a keyword selects the keyword agent, whatever the query. |
| Session.InitSession | main.py:29-39 | Each missing session value gets its default (None, False, [], {}). Each present value is kept. |
| Session.InitKeepsSession | main.py:29-39 | A first visit starts fresh, and a rerun leaves a live session as it was. |
| Session.ScreenOf | main.py:59-97 | Domain cards show iff no domain is chosen, the form iff one is chosen without accepted details, the chat iff details are accepted. The screen's domain is the chosen one. |
| Session.MissingFields | ui/components.py:69 | The result is exactly the required fields left blank after strip, as a subsequence of the form's field order. |
| Session.SubmitDetails | ui/components.py:67-76 | Submitting fails iff some field is blank, with all blank fields named in the error. Otherwise the details hold exactly the required fields, unstripped and not blank. |
| Session.Step | ui/components.py:29-371 | The details change only by an accepted form. The domain changes only by choosing one or going home. The history is either emptied or kept whole with entries added after it. |
| Session.StepPreservesInv | ui/components.py:29-371 | Every action keeps the invariant: details accepted only for a chosen domain and complete, no history without a domain, and alternating user and assistant entries. |
| Session.RunPreservesInv | ui/components.py:29-371 | Any sequence of actions keeps the invariant. |
| Session.FreshInv | main.py:29-39 | A fresh session satisfies the invariant. |
| Session.AppendExchange | ui/components.py:97-115 | Appending a prompt and its reply keeps the history alternating. |
| Session.SelectOpensForm | ui/components.py:29-31 | Choosing a domain opens its form and keeps the details. The history is not touched; it is already empty there in a reachable session. |
| Session.DomainChoiceStartsEmpty | ui/components.py:29-370 | In every session reached from a fresh one, choosing a domain starts with an empty history: the cards show only on a fresh start or after Back to Home, which clears it. |
| Session.SubmitMissingKeepsState | ui/components.py:71-72 | A form with a blank field changes nothing. |
| Session.SubmitOpensChat | ui/components.py:73-76 | A complete form opens an empty chat holding the typed values. |
| Session.ChatTurnAppendsPair | ui/components.py:97-115 | A message appends exactly the prompt and the chosen crew's reply, and changes nothing else. |
| Session.NoTurnWithoutChat | ui/components.py:97 | An empty prompt, or a prompt off the chat screen, changes nothing. |
| Session.ChatNeverInvalidDomain | ui/components.py:109 | A chat never gets "Invalid domain selected.", unless a model writes it. |
| Session.ResetClearsOnlyMessages | ui/components.py:363-364 | Reset Chat empties the history and keeps the screen and the details. |
| Session.BackHomeKeepsUserInfo | ui/components.py:367-370 | Back to Home shows the domain cards, empties the history and keeps the details. |
| Session.GreetingName | ui/components.py:87 | The greeting uses the stored name, or "Customer" when there is none. |
| Session.ChatGreetsByName | ui/components.py:87 | In every reachable chat the greeting uses the typed, non-blank name. |
| Session.FirstExchange | ui/components.py:29-115 | Choosing a domain, filling the form and asking once leaves a chat holding that one exchange. |

## Left out

- Language-model work is left out: crew and task construction, prompts, `crew.kickoff()` and `analyze_intent`. Each completion, and each exception it raises, is an input (`Dispatch.LlmRun`).
- The Streamlit rendering is left out: markdown, spinners, `st.rerun`, the sidebar statistics and test-data block, and the first-run database initialisation. Only the session values are modelled.
- The vector store is left out. `search_knowledge` is an oracle that answers with no collection, a list of document lists, or an exception. Chroma's similarity ranking is not modelled.
- SQL text and the SQLite engine are left out. Tables are sequences of records, and each lookup is the filter, order and limit its statement describes.
  - Ties in `ORDER BY created_at DESC` keep table order. SQLite does not promise any tie order.
  - Timestamps compare as text, as SQLite's BINARY collation does.
- Python's `lower()` and `upper()` are modelled over ASCII letters only. The full Unicode case mappings are out of scope. `strip()` removes exactly the characters Python's `str.isspace` accepts.
- CommonTools.DigitsOf: keeps ASCII digits only. Python's `\d` in a `str` pattern also keeps every other Unicode decimal digit, such as Arabic-Indic digits. The model does not classify Unicode digits.
- CommonTools.ValidateUserInput: the phone branch's error text is the `UnboundLocalError` message of Python 3.11 and later. Earlier versions word it "local variable 're' referenced before assignment". Only one wording can be fixed, so the model uses the newer one.
- The `created_at` columns are assumed never to be NULL. Their DEFAULT fills them when omitted, and an explicit NULL, which would sort last under `ORDER BY created_at DESC`, is not modelled.
- The amount columns (prices, totals, charges, data usage) are DECIMAL. SQLite stores them with NUMERIC affinity, so an integral amount such as 150.00 is stored as the integer 150. Each row carries one fixed text per amount: the text Python prints for it in a one-row frame. That is "150" for an integral amount, "89.99" for a fractional one, and "None" for NULL. The model does no arithmetic on them.
- EcommerceTools.GetCustomerOrders, BankingTools.GetRecentTransactions: in a listing of several rows, pandas gives the amount column one dtype across all listed rows, so an amount's printed text depends on the other rows. An integral amount listed beside a fractional one gains ".0" ("$150.0" instead of "$150"). A NULL total listed beside numbers prints "nan" instead of "None". The model prints each row's fixed text. That agrees with Python when the listed amounts are all integral, all fractional, or all NULL, and differs otherwise.
- The sample-data loader is left out as a program; only its `INSERT OR REPLACE` statement is modelled. Store.ReplaceOrder and Store.ReplaceBankAccount apply it to orders and bank accounts. On customers, products, transactions and telecom accounts it is Relation.Replace on that table, with no member per table. SQLite's REPLACE deletes the rows that clash on any UNIQUE column. Here that is only the key column, because the `id` is never named and so never clashes.
- Store.ReloadOrderIdempotent: it is about loading the identical row. The loader does not name `created_at`, so a re-run in a later second gives the replaced row a new timestamp.
- The regular-expression engine is left out. The e-mail pattern is decided by a hand-written check.
- `datetime.now()` is left out. The weekday, the hour and the date-time are inputs.
- Clock.Year: `%Y` is modelled for years 1000 to 9999 only. Below 1000 the C library's padding differs between platforms.
- BankingTools.MoneyText: the balance is an exact amount in hundredths. Binary floating-point rounding of a DECIMAL column read through pandas is not modelled.
- `log_chat_session` and `get_system_status` are left out. They are a plain insert and a GROUP BY report, and the chat screen never calls them.
- The token accounting and the network client of the model configuration are left out. They depend on live API responses.
- Session.Step: it does not model the info and success banners, or the order in which Streamlit draws them.

## Findings

| source | as written | input that shows it | evidently intended | confidence | as-written member | corrected member |
|---|---|---|---|---|---|---|
| tools/common_tools.py:76-101 | `import re` inside the email branch makes `re` a local name for the whole function. The phone branch uses it unbound, and the handler turns the `UnboundLocalError` into "Validation error: …". | "555-123-4567" with format "phone" | A phone is valid iff it has ten digits or more after removing non-digits. | not executed | CommonTools.ValidateUserInput, CommonTools.PhoneBranchCounterexample | CommonTools.ValidateUserInputIntended |
