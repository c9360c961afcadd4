/** The constant tables of the configuration: the three supported business
    domains and the identifying fields each domain asks for before a chat. */
module Settings {
  import opened Wrappers

  /** The closed set of business domains. */
  datatype Domain = Ecommerce | Banking | Telecom

  /** The lower-case key under which a domain appears everywhere in the system. */
  function Label(d: Domain): string {
    match d
    case Ecommerce => "ecommerce"
    case Banking => "banking"
    case Telecom => "telecom"
  }

  /** Recognise a domain key; anything else is not a domain. */
  function ParseLabel(s: string): (r: Option<Domain>)
    ensures r.Some? ==> Label(r.value) == s
    ensures forall d: Domain :: Label(d) == s ==> r == Some(d)
  {
    if s == "ecommerce" then Some(Ecommerce)
    else if s == "banking" then Some(Banking)
    else if s == "telecom" then Some(Telecom)
    else None
  }

  /** Display data of a domain card. */
  datatype DomainInfo = DomainInfo(name: string, icon: string, color: string, description: string)

  /** The `DOMAINS` table, keyed by domain label. */
  const Domains: map<string, DomainInfo> := map[
    "ecommerce" := DomainInfo("E-commerce", "\U{1F6D2}", "#FF6B6B", "Order tracking, returns, product inquiries"),
    "banking" := DomainInfo("Banking", "\U{1F3E6}", "#4ECDC4", "Account balance, transactions, card services"),
    "telecom" := DomainInfo("Telecom", "\U{1F4F1}", "#45B7D1", "Billing, network issues, plan changes")
  ]

  /** The `USER_INFO_FIELDS` table: the fields the info form asks for, in order. */
  const UserInfoFields: map<string, seq<string>> := map[
    "ecommerce" := ["name", "email", "order_id"],
    "banking" := ["name", "account_number", "phone"],
    "telecom" := ["name", "phone_number", "account_id"]
  ]

  /** The required fields of a domain, read from `USER_INFO_FIELDS`. */
  function RequiredFields(d: Domain): (fields: seq<string>)
    ensures |fields| == 3 && fields[0] == "name"
    ensures forall i, j :: 0 <= i < j < |fields| ==> fields[i] != fields[j]
  {
    UserInfoFields[Label(d)]
  }

  /** Both tables are keyed by exactly the three domain labels, and every
      label of a domain is a key of both. */
  lemma TablesCoverDomains()
    ensures Domains.Keys == UserInfoFields.Keys == {"ecommerce", "banking", "telecom"}
    ensures forall d: Domain :: Label(d) in Domains && Label(d) in UserInfoFields
    ensures forall k :: k in Domains ==> ParseLabel(k).Some?
  {
  }

  /** The domain-specific fields after "name". */
  lemma RequiredFieldsPerDomain()
    ensures RequiredFields(Ecommerce)[1..] == ["email", "order_id"]
    ensures RequiredFields(Banking)[1..] == ["account_number", "phone"]
    ensures RequiredFields(Telecom)[1..] == ["phone_number", "account_id"]
  {
  }
}
