/** The specialist selectors of the three domain crews. Each crew has two
    agents and picks one by a case-insensitive keyword-substring test on the
    text it is given; no keyword selects the crew's default agent. */
module Crews {
  import opened Text
  import opened Settings

  /** The six agents, two per domain. */
  datatype Specialist =
    | OrderManagement | EcommerceService
    | AccountSpecialist | TransactionAnalyst
    | TechnicalSupport | BillingSpecialist

  /** The `role` string each agent is created with. */
  function Role(s: Specialist): string {
    match s
    case OrderManagement => "Order Management Specialist"
    case EcommerceService => "E-commerce Customer Service Representative"
    case AccountSpecialist => "Banking Account Specialist"
    case TransactionAnalyst => "Transaction Analyst"
    case TechnicalSupport => "Telecom Technical Support Specialist"
    case BillingSpecialist => "Telecom Billing Specialist"
  }

  /** The crew an agent belongs to. */
  function HomeDomain(s: Specialist): Domain {
    match s
    case OrderManagement | EcommerceService => Ecommerce
    case AccountSpecialist | TransactionAnalyst => Banking
    case TechnicalSupport | BillingSpecialist => Telecom
  }

  /** `order_keywords` of the e-commerce crew. */
  const OrderKeywords: seq<string> := ["order", "tracking", "shipment", "delivery", "status"]

  /** `transaction_keywords` of the banking crew. */
  const TransactionKeywords: seq<string> := ["transaction", "transfer", "payment", "history", "charge"]

  /** `technical_keywords` of the telecom crew. */
  const TechnicalKeywords: seq<string> := ["network", "signal", "connection", "outage", "technical", "slow"]

  /** Python's `any(keyword in text for keyword in keywords)`, scanned in order. */
  function AnyKeyword(keywords: seq<string>, text: string): bool {
    |keywords| > 0 && (Contains(text, keywords[0]) || AnyKeyword(keywords[1..], text))
  }

  /** Some keyword of the list occurs in the text. */
  predicate Mentions(text: string, keywords: seq<string>) {
    exists k :: k in keywords && Contains(text, k)
  }

  /** The ordered scan finds a keyword exactly when one occurs. */
  lemma {:induction false} AnyKeywordMeansMentions(keywords: seq<string>, text: string)
    ensures AnyKeyword(keywords, text) <==> Mentions(text, keywords)
    decreases |keywords|
  {
    if |keywords| > 0 {
      AnyKeywordMeansMentions(keywords[1..], text);
      assert forall k :: k in keywords <==> k == keywords[0] || k in keywords[1..];
    }
  }

  /** `EcommerceCrew.determine_best_agent`. */
  function EcommerceBestAgent(query: string): (s: Specialist)
    ensures s == OrderManagement <==> Mentions(Lower(query), OrderKeywords)
    ensures s == EcommerceService <==> !Mentions(Lower(query), OrderKeywords)
  {
    AnyKeywordMeansMentions(OrderKeywords, Lower(query));
    if AnyKeyword(OrderKeywords, Lower(query)) then OrderManagement else EcommerceService
  }

  /** `BankingCrew.determine_best_agent`. */
  function BankingBestAgent(query: string): (s: Specialist)
    ensures s == TransactionAnalyst <==> Mentions(Lower(query), TransactionKeywords)
    ensures s == AccountSpecialist <==> !Mentions(Lower(query), TransactionKeywords)
  {
    AnyKeywordMeansMentions(TransactionKeywords, Lower(query));
    if AnyKeyword(TransactionKeywords, Lower(query)) then TransactionAnalyst else AccountSpecialist
  }

  /** `TelecomCrew.determine_best_agent`. */
  function TelecomBestAgent(query: string): (s: Specialist)
    ensures s == TechnicalSupport <==> Mentions(Lower(query), TechnicalKeywords)
    ensures s == BillingSpecialist <==> !Mentions(Lower(query), TechnicalKeywords)
  {
    AnyKeywordMeansMentions(TechnicalKeywords, Lower(query));
    if AnyKeyword(TechnicalKeywords, Lower(query)) then TechnicalSupport else BillingSpecialist
  }

  // ---------------------------------------------------------------------
  // The three selectors seen as one rule indexed by domain

  /** The keyword list of a domain's crew. */
  function Keywords(d: Domain): seq<string> {
    match d
    case Ecommerce => OrderKeywords
    case Banking => TransactionKeywords
    case Telecom => TechnicalKeywords
  }

  /** The agent a keyword hit selects. */
  function KeywordSpecialist(d: Domain): Specialist {
    match d
    case Ecommerce => OrderManagement
    case Banking => TransactionAnalyst
    case Telecom => TechnicalSupport
  }

  /** The agent chosen when no keyword occurs. */
  function DefaultSpecialist(d: Domain): Specialist {
    match d
    case Ecommerce => EcommerceService
    case Banking => AccountSpecialist
    case Telecom => BillingSpecialist
  }

  /** The selector of the crew for domain `d`: always one of that crew's two
      agents, the keyword agent exactly when a keyword occurs case-insensitively. */
  function DetermineBestAgent(d: Domain, query: string): (s: Specialist)
    ensures HomeDomain(s) == d
    ensures s == KeywordSpecialist(d) <==> Mentions(Lower(query), Keywords(d))
    ensures s == DefaultSpecialist(d) <==> !Mentions(Lower(query), Keywords(d))
  {
    match d
    case Ecommerce => EcommerceBestAgent(query)
    case Banking => BankingBestAgent(query)
    case Telecom => TelecomBestAgent(query)
  }

  /** Every keyword is a non-empty lower-case word: no space, no newline. */
  lemma KeywordsAreWords(d: Domain)
    ensures forall k :: k in Keywords(d) ==> |k| > 0 && ' ' !in k && '\n' !in k && Lower(k) == k
  {
    forall k | k in Keywords(d)
      ensures |k| > 0 && ' ' !in k && '\n' !in k && Lower(k) == k
    {
      assert forall i :: 0 <= i < |k| ==> 'a' <= k[i] <= 'z';
    }
  }

  /** No keyword of the list occurs in the text when each is excluded in turn. */
  lemma NoneMentioned(text: string, keywords: seq<string>)
    requires forall i :: 0 <= i < |keywords| ==> !Contains(text, keywords[i])
    ensures !Mentions(text, keywords)
  {
  }

  /** Selection depends only on the lower-cased query. */
  lemma SelectionIgnoresCase(d: Domain, query: string)
    ensures DetermineBestAgent(d, query) == DetermineBestAgent(d, Lower(query))
  {
    LowerIdempotent(query);
  }

  /** Selection is monotone: a query that contains one selecting the keyword
      agent selects it too. */
  lemma SelectionMonotone(d: Domain, query: string, larger: string)
    requires Contains(larger, query)
    requires DetermineBestAgent(d, query) == KeywordSpecialist(d)
    ensures DetermineBestAgent(d, larger) == KeywordSpecialist(d)
  {
    var k :| k in Keywords(d) && Contains(Lower(query), k);
    ContainsLower(larger, query);
    ContainsTransitive(Lower(larger), Lower(query), k);
  }
}
