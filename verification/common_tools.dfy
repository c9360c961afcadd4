/** The tools every crew shares: the customer lookup, the search across all
    three knowledge bases, input validation, the business-hours notice and the
    escalation notice. The store, the search oracle and the clock are
    parameters; every tool returns text and never raises. */
module CommonTools {
  import opened Text
  import opened Wrappers
  import opened Settings
  import opened Relation
  import opened Store
  import opened Knowledge
  import opened Clock
  import opened EmailPattern

  // ---------------------------------------------------------------------
  // get_customer_info

  /** The line printed for a found customer. */
  function CustomerLine(c: Customer): string {
    "Customer: " + c.name + ", Email: " + Show(c.email) + ", Phone: " + Show(c.phone)
      + ", Domain: " + c.domain
  }

  /** `get_customer_info`: the first matching row's line, a not-found line,
      or the error text of a failing store. */
  function GetCustomerInfo(db: Db, customerId: string): (s: string)
    ensures db.Offline? ==> s == "Error retrieving customer info: " + db.error
    ensures db.Online? && !HasKey(db.tables.customers, CustomerKey, customerId) ==>
      s == "Customer " + customerId + " not found."
    ensures db.Online? && HasKey(db.tables.customers, CustomerKey, customerId) ==>
      exists c :: c in db.tables.customers && c.customerId == customerId && s == CustomerLine(c)
  {
    match CustomerRows(db, customerId)
    case Fault(e) => "Error retrieving customer info: " + e
    case Ok(rows) =>
      if |rows| == 0 then
        assert forall i :: 0 <= i < |db.tables.customers| ==> db.tables.customers[i] !in rows;
        "Customer " + customerId + " not found."
      else
        assert rows[0] in rows;
        CustomerLine(rows[0])
  }

  /** With unique customer ids the line is the one of the customer with that id. */
  lemma CustomerInfoOfUniqueRow(t: Tables, c: Customer)
    requires Valid(t) && c in t.customers
    ensures GetCustomerInfo(Online(t), c.customerId) == CustomerLine(c)
  {
    var i :| 0 <= i < |t.customers| && t.customers[i] == c;
    UniqueLookup(t.customers, CustomerKey, c.customerId);
  }

  /** Missing e-mail and phone print as Python's `None`, which an empty
      string does not. */
  lemma NullFieldsPrintNone(name: string, domain: string, at: string)
    ensures CustomerLine(Customer("C1", name, None, None, domain, at))
      == "Customer: " + name + ", Email: None, Phone: None, Domain: " + domain
    ensures CustomerLine(Customer("C1", name, Some(""), Some(""), domain, at))
      == "Customer: " + name + ", Email: , Phone: , Domain: " + domain
  {
    var a, b, c := ", Email: ", ", Phone: ", ", Domain: ";
    MiddleOfLine("Customer: " + name, a, "None", b, "None", c, domain);
    assert a + "None" + b + "None" + c == ", Email: None, Phone: None, Domain: ";
    MiddleOfLine("Customer: " + name, a, "", b, "", c, domain);
    assert a + "" + b + "" + c == ", Email: , Phone: , Domain: ";
  }

  /** Regrouping a line around its middle part. */
  lemma MiddleOfLine(h: string, a: string, e: string, b: string, p: string, c: string, t: string)
    ensures h + a + e + b + p + c + t == h + (a + e + b + p + c) + t
  {
  }

  // ---------------------------------------------------------------------
  // search_general_knowledge

  /** The knowledge bases searched, in order. */
  const GeneralDomains: seq<Domain> := [Ecommerce, Banking, Telecom]

  /** What each domain's one-result search offers, domain by domain. */
  function Offered(search: Search, query: string, ds: seq<Domain>): seq<seq<string>> {
    seq(|ds|, i requires 0 <= i < |ds| => FirstDocuments(search(ds[i], query, 1)))
  }

  /** The hits of searching each domain in turn for one result; the first
      raised exception ends the search. Without one, the hits are every
      domain's documents, in domain order and in the order each search gave
      them. */
  function CollectHits(search: Search, query: string, ds: seq<Domain>): (r: Result<seq<string>>)
    ensures r.Fault? <==> exists i :: 0 <= i < |ds| && search(ds[i], query, 1).Raised?
    ensures r.Fault? ==> exists i :: (0 <= i < |ds| && search(ds[i], query, 1) == Raised(r.error)
      && forall k :: 0 <= k < i ==> !search(ds[k], query, 1).Raised?)
    ensures r.Ok? ==> r.value == Flatten(Offered(search, query, ds))
  {
    if |ds| == 0 then Ok([])
    else
      var reply := search(ds[0], query, 1);
      if reply.Raised? then
        Fault(reply.error)
      else
        var rest := CollectHits(search, query, ds[1..]);
        if rest.Fault? then
          var i :| 0 <= i < |ds[1..]| && search(ds[1..][i], query, 1) == Raised(rest.error)
            && forall k :: 0 <= k < i ==> !search(ds[1..][k], query, 1).Raised?;
          assert search(ds[i + 1], query, 1) == Raised(rest.error);
          assert forall k :: 0 <= k < i + 1 ==> !search(ds[k], query, 1).Raised? by {
            forall k | 0 <= k < i + 1
              ensures !search(ds[k], query, 1).Raised?
            {
              if k > 0 {
                assert ds[k] == ds[1..][k - 1];
              }
            }
          }
          rest
        else
          assert forall j :: 1 <= j < |ds| ==> !search(ds[j], query, 1).Raised? by {
            forall j | 1 <= j < |ds|
              ensures !search(ds[j], query, 1).Raised?
            {
              assert ds[j] == ds[1..][j - 1];
            }
          }
          assert Offered(search, query, ds)[1..] == Offered(search, query, ds[1..]);
          Ok(FirstDocuments(reply) + rest.value)
  }

  const GeneralFound := "General information found: "
  /** The no-hit message, written in pieces: the verifier handles short
      literals far more cheaply than one long one. */
  const NoKnowledge := "No relevant" + " information found in knowledge base."
  const GeneralError := "Error searching knowledge base: "

  /** `search_general_knowledge`: the error of the first search that raises;
      otherwise the fixed message when no domain offers a document, and else
      the first two of the e-commerce, banking and telecom documents, in that
      order, joined by " | ". */
  function SearchGeneralKnowledge(search: Search, query: string): (s: string)
    ensures var e, b, t := search(Ecommerce, query, 1), search(Banking, query, 1), search(Telecom, query, 1);
      var hits := FirstDocuments(e) + FirstDocuments(b) + FirstDocuments(t);
      && (e.Raised? ==> s == GeneralError + e.error)
      && (!e.Raised? && b.Raised? ==> s == GeneralError + b.error)
      && (!e.Raised? && !b.Raised? && t.Raised? ==> s == GeneralError + t.error)
      && (s == NoKnowledge <==> !e.Raised? && !b.Raised? && !t.Raised? && hits == [])
      && (!e.Raised? && !b.Raised? && !t.Raised? && hits != [] ==> s == GeneralFound + Join(Take(hits, 2), " | "))
  {
    GeneralHits(search, query);
    match CollectHits(search, query, GeneralDomains)
    case Fault(e) =>
      assert GeneralError[0] == 'E' && NoKnowledge[0] == 'N';
      assert (GeneralError + e)[0] == GeneralError[0];
      GeneralError + e
    case Ok(hits) =>
      if |hits| > 0 then
        assert GeneralFound[0] == 'G' && NoKnowledge[0] == 'N';
        assert (GeneralFound + Join(Take(hits, 2), " | "))[0] == GeneralFound[0];
        GeneralFound + Join(Take(hits, 2), " | ")
      else NoKnowledge
  }

  /** The loop over the three domains, spelt out. */
  lemma GeneralHits(search: Search, query: string)
    ensures var e, b, t := search(Ecommerce, query, 1), search(Banking, query, 1), search(Telecom, query, 1);
      var r := CollectHits(search, query, GeneralDomains);
      && (e.Raised? ==> r == Fault(e.error))
      && (!e.Raised? && b.Raised? ==> r == Fault(b.error))
      && (!e.Raised? && !b.Raised? && t.Raised? ==> r == Fault(t.error))
      && (!e.Raised? && !b.Raised? && !t.Raised? ==>
            r == Ok(FirstDocuments(e) + FirstDocuments(b) + FirstDocuments(t)))
  {
    var e, b, t := search(Ecommerce, query, 1), search(Banking, query, 1), search(Telecom, query, 1);
    var r := CollectHits(search, query, GeneralDomains);
    var ds := GeneralDomains;
    assert ds[0] == Ecommerce && ds[1] == Banking && ds[2] == Telecom;
    if r.Fault? {
      var i :| 0 <= i < 3 && search(ds[i], query, 1) == Raised(r.error)
        && forall k :: 0 <= k < i ==> !search(ds[k], query, 1).Raised?;
    } else {
      var xs := Offered(search, query, ds);
      assert xs[0] == FirstDocuments(e) && xs[1] == FirstDocuments(b) && xs[2] == FirstDocuments(t);
      assert xs[1..][1..][1..] == [];
      assert Flatten(xs[1..][1..]) == FirstDocuments(t) + Flatten(xs[1..][1..][1..]);
      assert Flatten(xs[1..][1..]) == FirstDocuments(t);
      assert Flatten(xs[1..]) == FirstDocuments(b) + FirstDocuments(t);
      assert Flatten(xs) == FirstDocuments(e) + (FirstDocuments(b) + FirstDocuments(t));
      assert FirstDocuments(e) + (FirstDocuments(b) + FirstDocuments(t))
        == FirstDocuments(e) + FirstDocuments(b) + FirstDocuments(t);
    }
  }

  /** Only one-result searches are ever asked for: two oracles that agree on
      them give the same answer. */
  lemma {:induction false} HitsUseOneResult(a: Search, b: Search, query: string, ds: seq<Domain>)
    requires forall d :: a(d, query, 1) == b(d, query, 1)
    ensures CollectHits(a, query, ds) == CollectHits(b, query, ds)
    decreases |ds|
  {
    if |ds| > 0 {
      HitsUseOneResult(a, b, query, ds[1..]);
    }
  }

  /** The general search depends only on the one-result searches. */
  lemma GeneralSearchUsesOneResult(a: Search, b: Search, query: string)
    requires forall d :: a(d, query, 1) == b(d, query, 1)
    ensures SearchGeneralKnowledge(a, query) == SearchGeneralKnowledge(b, query)
  {
    HitsUseOneResult(a, b, query, GeneralDomains);
  }

  /** When e-commerce and banking each give a hit, the telecom hit is dropped. */
  lemma TelecomHitDropped(search: Search, query: string, e: string, b: string, t: string)
    requires search(Ecommerce, query, 1) == Found([[e]])
    requires search(Banking, query, 1) == Found([[b]])
    requires search(Telecom, query, 1) == Found([[t]])
    ensures SearchGeneralKnowledge(search, query) == "General information found: " + e + " | " + b
  {
    assert [Telecom][1..] == [];
    assert [Banking, Telecom][1..] == [Telecom];
    assert GeneralDomains[1..] == [Banking, Telecom];
    assert CollectHits(search, query, []) == Ok([]);
    assert FirstDocuments(search(Telecom, query, 1)) == [t];
    assert FirstDocuments(search(Banking, query, 1)) == [b];
    assert FirstDocuments(search(Ecommerce, query, 1)) == [e];
    HitsStep(search, query, [Telecom]);
    HitsStep(search, query, [Banking, Telecom]);
    HitsStep(search, query, GeneralDomains);
    assert [t] + [] == [t] && [b] + [t] == [b, t] && [e] + [b, t] == [e, b, t];
    assert CollectHits(search, query, [Telecom]) == Ok([t]);
    assert CollectHits(search, query, [Banking, Telecom]) == Ok([b, t]);
    var hits := [e, b, t];
    assert CollectHits(search, query, GeneralDomains) == Ok(hits);
    assert Take(hits, 2) == [e, b];
    assert Join([e, b], " | ") == e + " | " + Join([b], " | ");
  }

  /** One step of the search loop over a domain that does not raise. */
  lemma HitsStep(search: Search, query: string, ds: seq<Domain>)
    requires |ds| > 0 && !search(ds[0], query, 1).Raised?
    ensures var rest := CollectHits(search, query, ds[1..]);
      CollectHits(search, query, ds) == if rest.Fault? then rest else Ok(FirstDocuments(search(ds[0], query, 1)) + rest.value)
  {
  }

  /** Without any document and without a fault the fixed message comes back. */
  lemma NoHitsMessage(search: Search, query: string)
    requires forall d :: !search(d, query, 1).Raised? && !HasDocuments(search(d, query, 1))
    ensures SearchGeneralKnowledge(search, query) == NoKnowledge
  {
    var e, b, t := search(Ecommerce, query, 1), search(Banking, query, 1), search(Telecom, query, 1);
    assert !e.Raised? && !HasDocuments(e);
    assert !b.Raised? && !HasDocuments(b);
    assert !t.Raised? && !HasDocuments(t);
    assert FirstDocuments(e) + FirstDocuments(b) + FirstDocuments(t) == [];
  }

  // ---------------------------------------------------------------------
  // validate_user_input

  /** The message of the `UnboundLocalError` raised when `re` is used before
      the function-local `import re` has run (Python 3.11 wording). */
  const UnboundRe := "cannot access local variable 're' where it is not associated with a value"

  /** The replies of the order-id check. */
  const ValidOrderId := "Valid order ID format"
  const InvalidOrderId := "Invalid order ID format (should start with 'ORD')"

  /** The order-id rule: the "ORD" prefix, case-sensitive, and six characters at least. */
  predicate OrderIdShape(s: string) {
    StartsWith(s, "ORD") && |s| >= 6
  }

  /** `validate_user_input` as written. The phone branch refers to `re`,
      which the `import re` inside the email branch makes a local name of the
      whole function; on the phone path that name was never bound, so the
      call raises and the handler answers with the error text. */
  function ValidateUserInput(input: string, format: string): (s: string)
    ensures format == "email" ==>
      (s == "Valid email format" <==> EmailMatch(input)) && (s == "Invalid email format" <==> !EmailMatch(input))
    ensures format == "phone" ==> s == "Validation error: " + UnboundRe
    ensures format == "order_id" ==>
      (s == ValidOrderId <==> OrderIdShape(input)) && (s == InvalidOrderId <==> !OrderIdShape(input))
    ensures format != "email" && format != "phone" && format != "order_id" ==> s == "Unknown validation format"
  {
    if format == "email" then
      if Accepts(input) then "Valid email format" else "Invalid email format"
    else if format == "phone" then
      "Validation error: " + UnboundRe
    else if format == "order_id" then
      if OrderIdShape(input) then ValidOrderId else InvalidOrderId
    else "Unknown validation format"
  }

  /** The ASCII digits of `s`, in order (`re.sub(r'[^\d]', '', s)`). */
  function DigitsOf(s: string): (d: string)
    ensures |d| <= |s|
    ensures forall i :: 0 <= i < |d| ==> AsciiDigit(d[i])
    ensures forall c :: multiset(d)[c] == if AsciiDigit(c) then multiset(s)[c] else 0
    ensures (forall i :: 0 <= i < |s| ==> AsciiDigit(s[i])) ==> d == s
  {
    if |s| == 0 then ""
    else
      assert s == [s[0]] + s[1..];
      if AsciiDigit(s[0]) then [s[0]] + DigitsOf(s[1..])
      else DigitsOf(s[1..])
  }

  /** Cleaning keeps digits and drops everything else, piece by piece. */
  lemma {:induction false} DigitsOfAppend(a: string, b: string)
    ensures DigitsOf(a + b) == DigitsOf(a) + DigitsOf(b)
    decreases |a|
  {
    if |a| == 0 {
      assert a + b == b;
    } else {
      assert (a + b)[0] == a[0];
      assert (a + b)[1..] == a[1..] + b;
      DigitsOfAppend(a[1..], b);
    }
  }

  /** `validate_user_input` with the phone branch as evidently intended: at
      least ten digits once everything else is removed. */
  function ValidateUserInputIntended(input: string, format: string): (s: string)
    ensures format == "phone" ==>
      (s == "Valid phone format" <==> |DigitsOf(input)| >= 10)
      && (s == "Invalid phone format" <==> |DigitsOf(input)| < 10)
    ensures format != "phone" ==> s == ValidateUserInput(input, format)
  {
    if format == "phone" then
      if |DigitsOf(input)| >= 10 then "Valid phone format" else "Invalid phone format"
    else ValidateUserInput(input, format)
  }

  /** Separators between digit groups are dropped by the cleaning. */
  lemma DigitsAcrossDash(a: string, b: string)
    ensures DigitsOf(a + "-" + b) == DigitsOf(a) + DigitsOf(b)
  {
    DigitsOfAppend(a + "-", b);
    DigitsOfAppend(a, "-");
  }

  /** Three digit groups joined by dashes clean to the groups run together. */
  lemma DashedGroupsDigits(a: string, b: string, c: string)
    requires forall i :: 0 <= i < |a| ==> AsciiDigit(a[i])
    requires forall i :: 0 <= i < |b| ==> AsciiDigit(b[i])
    requires forall i :: 0 <= i < |c| ==> AsciiDigit(c[i])
    ensures DigitsOf(a + "-" + b + "-" + c) == a + b + c
  {
    assert DigitsOf(a) == a && DigitsOf(b) == b && DigitsOf(c) == c;
    DigitsAcrossDash(a + "-" + b, c);
    DigitsAcrossDash(a, b);
  }

  /** "555-123-4567" keeps its ten digits. */
  lemma DashedNumberDigits()
    ensures |DigitsOf("555-123-4567")| == 10
  {
    var a, b, c := "555", "123", "4567";
    var n := a + "-" + b + "-" + c;
    assert n == "555-123-4567";
    DashedGroupsDigits(a, b, c);
    assert |DigitsOf(n)| == |a| + |b| + |c| == 10;
  }

  /** The discrepancy: a ten-digit number with dashes is refused with an
      error by the code as written and accepted by the intended rule. */
  lemma PhoneBranchCounterexample()
    ensures ValidateUserInput("555-123-4567", "phone") == "Validation error: " + UnboundRe
    ensures ValidateUserInputIntended("555-123-4567", "phone") == "Valid phone format"
  {
    DashedNumberDigits();
  }

  /** The order-id examples. */
  lemma OrderIdExamples()
    ensures ValidateUserInput("ORD001", "order_id") == ValidOrderId
    ensures ValidateUserInput("ORD12", "order_id") == InvalidOrderId
    ensures ValidateUserInput("ord123", "order_id") == InvalidOrderId
    ensures ValidateUserInput("XYZ123", "order_id") == InvalidOrderId
  {
    assert "ORD001"[..3] == "ORD";
    assert "ord123"[..3][0] == 'o';
    assert "XYZ123"[..3][0] == 'X';
  }

  // ---------------------------------------------------------------------
  // get_business_hours

  const OpenNotice := "We are currently open! Business hours: Monday-Friday 9 AM - 6 PM EST"
  const ClosedNotice := "We are currently closed. Business hours: Monday-Friday 9 AM - 6 PM EST. AI support is available 24/7."
  const WeekendNotice := "We are closed on weekends. Business hours: Monday-Friday 9 AM - 6 PM EST. AI support is available 24/7."

  /** `get_business_hours` for a weekday (0 is Monday) and an hour of the
      local clock. */
  function BusinessHours(weekday: int, hour: int): (s: string)
    requires 0 <= weekday <= 6 && 0 <= hour <= 23
    ensures s == OpenNotice <==> weekday < 5 && 9 <= hour < 18
    ensures s == ClosedNotice <==> weekday < 5 && (hour < 9 || 18 <= hour)
    ensures s == WeekendNotice <==> weekday >= 5
  {
    assert |OpenNotice| < |ClosedNotice| < |WeekendNotice|;
    if weekday < 5 then
      if 9 <= hour < 18 then OpenNotice else ClosedNotice
    else WeekendNotice
  }

  /** Number of open hours on a day. */
  function OpenHoursOn(weekday: int, from: int): (n: nat)
    requires 0 <= weekday <= 6 && 0 <= from <= 24
    decreases 24 - from
  {
    if from == 24 then 0
    else (if BusinessHours(weekday, from) == OpenNotice then 1 else 0) + OpenHoursOn(weekday, from + 1)
  }

  /** A weekday has nine open hours (9 to 17) and a weekend day none. */
  lemma OpenHoursPerDay(weekday: int)
    requires 0 <= weekday <= 6
    ensures OpenHoursOn(weekday, 0) == if weekday < 5 then 9 else 0
  {
    var k := 24;
    while k > 0
      invariant 0 <= k <= 24
      invariant OpenHoursOn(weekday, k) == if weekday < 5 then (if k <= 9 then 9 else if k <= 18 then 18 - k else 0) else 0
      decreases k
    {
      k := k - 1;
      assert BusinessHours(weekday, k) == OpenNotice <==> weekday < 5 && 9 <= k < 18;
    }
  }

  // ---------------------------------------------------------------------
  // escalate_to_human

  const EscalationLead := "Your issue has been escalated to a human agent. Escalation ID: "
  const PriorityLead := ". Priority: "
  const ContactWindow := ". You will be contacted within 2-4 hours during business hours."

  /** The escalation id: `ESC_` and the clock's second. */
  function EscalationId(now: DateTime): (id: string)
    requires ValidDateTime(now)
    ensures 1000 <= now.year ==> |id| == 19 && id[..4] == "ESC_"
  {
    "ESC_" + Stamp(now)
  }

  /** `escalate_to_human`: nothing is stored; the notice names the id and
      the priority. */
  function EscalateToHuman(issue: string, customerId: string, priority: string, now: DateTime): (s: string)
    requires ValidDateTime(now)
    ensures StartsWith(s, EscalationLead + EscalationId(now) + PriorityLead + priority)
  {
    var s := EscalationLead + EscalationId(now) + PriorityLead + priority + ContactWindow;
    assert s[..|EscalationLead + EscalationId(now) + PriorityLead + priority|]
      == EscalationLead + EscalationId(now) + PriorityLead + priority;
    s
  }

  /** The priority when the caller gives none. */
  const DefaultPriority := "normal"

  /** A call that leaves the priority out is escalated as "normal": the
      notice reads back that priority next to its id. */
  lemma DefaultPriorityNotice(issue: string, customerId: string, now: DateTime)
    requires ValidDateTime(now) && 1000 <= now.year
    ensures var s := EscalateToHuman(issue, customerId, DefaultPriority, now);
      && StartsWith(s, EscalationLead + EscalationId(now) + PriorityLead + "normal")
      && ReadEscalation(s) == Some((EscalationId(now), "normal"))
  {
    EscalationRoundTrip(issue, customerId, DefaultPriority, now);
  }

  /** The description and the customer do not reach the notice. */
  lemma EscalationIgnoresIssueAndCustomer(
    issue1: string, customer1: string, issue2: string, customer2: string, priority: string, now: DateTime)
    requires ValidDateTime(now)
    ensures EscalateToHuman(issue1, customer1, priority, now) == EscalateToHuman(issue2, customer2, priority, now)
  {
  }

  /** Every priority is promised the same contact window. */
  lemma EscalationWindowFixed(issue: string, customerId: string, priority: string, now: DateTime)
    requires ValidDateTime(now)
    ensures var s := EscalateToHuman(issue, customerId, priority, now);
      |s| >= |ContactWindow| && s[|s| - |ContactWindow|..] == ContactWindow
  {
  }

  /** Read the id and the priority back out of a notice of the current shape. */
  function ReadEscalation(s: string): Option<(string, string)> {
    var head := |EscalationLead| + 19;
    if |s| >= head + |PriorityLead| + |ContactWindow|
       && s[..|EscalationLead|] == EscalationLead
       && s[head..head + |PriorityLead|] == PriorityLead
       && s[|s| - |ContactWindow|..] == ContactWindow
    then Some((s[|EscalationLead|..head], s[head + |PriorityLead|..|s| - |ContactWindow|]))
    else None
  }

  /** From year 1000 on, the notice gives back its id, the id gives back the
      second it was raised in, and the priority comes back verbatim. */
  lemma EscalationRoundTrip(issue: string, customerId: string, priority: string, now: DateTime)
    requires ValidDateTime(now) && 1000 <= now.year
    ensures ReadEscalation(EscalateToHuman(issue, customerId, priority, now)) == Some((EscalationId(now), priority))
    ensures ParseStamp(EscalationId(now)[4..]) == Some(Fields(now.year, now.month, now.day, now.hour, now.minute, now.second))
  {
    var id := EscalationId(now);
    assert EscalateToHuman(issue, customerId, priority, now) == EscalationLead + id + PriorityLead + priority + ContactWindow;
    ReadBackNotice(id, priority);
    assert id[4..] == Stamp(now);
    StampRoundTrip(now);
  }

  /** A notice built from a 19-character id reads back into its id and
      priority. */
  lemma ReadBackNotice(id: string, priority: string)
    requires |id| == 19
    ensures ReadEscalation(EscalationLead + id + PriorityLead + priority + ContactWindow) == Some((id, priority))
  {
    var s := EscalationLead + id + PriorityLead + priority + ContactWindow;
    var head := |EscalationLead| + 19;
    assert s[..|EscalationLead|] == EscalationLead;
    assert s[|EscalationLead|..head] == id;
    assert s[head..head + |PriorityLead|] == PriorityLead;
    assert s[head + |PriorityLead|..|s| - |ContactWindow|] == priority;
    assert s[|s| - |ContactWindow|..] == ContactWindow;
  }

  /** Two escalations within the same second share their id. */
  lemma SameSecondSameEscalationId(a: DateTime, b: DateTime)
    requires ValidDateTime(a) && ValidDateTime(b)
    requires a.(microsecond := 0) == b.(microsecond := 0)
    ensures EscalationId(a) == EscalationId(b)
  {
    SameSecondSameStamp(a, b);
  }
}
