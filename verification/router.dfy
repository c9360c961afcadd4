/** The deterministic part of the router crew: turning the classifier's raw
    completion text into one of the three domains, and the routing record
    built around it. The completion text itself is an input. */
module Router {
  import opened Text
  import opened Settings
  import opened Wrappers

  /** The `valid_domains` list, in the order it is scanned. */
  const ValidDomains: seq<Domain> := [Ecommerce, Banking, Telecom]

  /** The first domain of `ds` whose label occurs in `text`, or the fallback
      when none does (the `for … if domain in domain_result` loop). */
  function FirstLabelIn(ds: seq<Domain>, text: string, fallback: Domain): Domain {
    if |ds| == 0 then fallback
    else if Contains(text, Label(ds[0])) then ds[0]
    else FirstLabelIn(ds[1..], text, fallback)
  }

  /** Scanning the valid domains in order is the if-chain over the three labels. */
  lemma ScanValidDomains(text: string)
    ensures FirstLabelIn(ValidDomains, text, Ecommerce) ==
      if Contains(text, "ecommerce") then Ecommerce
      else if Contains(text, "banking") then Banking
      else if Contains(text, "telecom") then Telecom
      else Ecommerce
  {
    assert ValidDomains[1..] == [Banking, Telecom];
    assert [Banking, Telecom][1..] == [Telecom];
    assert [Telecom][1..] == [];
    assert FirstLabelIn([Telecom], text, Ecommerce) ==
      if Contains(text, "telecom") then Telecom else Ecommerce;
    assert FirstLabelIn([Banking, Telecom], text, Ecommerce) ==
      if Contains(text, "banking") then Banking else FirstLabelIn([Telecom], text, Ecommerce);
  }

  /** Every domain label is a non-empty word without whitespace. */
  lemma LabelIsWord(d: Domain)
    ensures |Label(d)| > 0 && NoSpace(Label(d))
  {
  }

  /** The classification of a raw completion: lower-cased, stripped, then the
      labels are tried in list order; no label at all falls back to e-commerce.
      The result is stated on the lower-cased text without the strip, which
      therefore cannot change which label is found. */
  function ClassifyDomain(completion: string): (d: Domain)
    ensures var t := Lower(completion);
      d == Ecommerce <==> Contains(t, "ecommerce") || (!Contains(t, "banking") && !Contains(t, "telecom"))
    ensures var t := Lower(completion);
      d == Banking <==> !Contains(t, "ecommerce") && Contains(t, "banking")
    ensures var t := Lower(completion);
      d == Telecom <==> !Contains(t, "ecommerce") && !Contains(t, "banking") && Contains(t, "telecom")
  {
    var cleaned := Strip(Lower(completion));
    LabelIsWord(Ecommerce);
    LabelIsWord(Banking);
    LabelIsWord(Telecom);
    StripKeepsContains(Lower(completion), "ecommerce");
    StripKeepsContains(Lower(completion), "banking");
    StripKeepsContains(Lower(completion), "telecom");
    ScanValidDomains(cleaned);
    FirstLabelIn(ValidDomains, cleaned, Ecommerce)
  }

  /** Confidence levels a routing record can carry. */
  datatype Confidence = Low | Medium | High

  /** The dictionary `route_customer` returns. */
  datatype RoutingInfo = RoutingInfo(
    domain: Domain,
    intentAnalysis: string,
    confidence: Confidence,
    routingReason: string)

  const ReasonPrefix := "Query classified as "
  const ReasonSuffix := " based on content analysis"

  /** `route_customer`: classification of the classifier's completion, the
      intent analyzer's completion passed through untouched, a confidence that
      is always high (also on fallback) and a reason naming the domain. */
  function RouteCustomer(classifierOutput: string, intentOutput: string): (r: RoutingInfo)
    ensures r.domain == ClassifyDomain(classifierOutput)
    ensures r.intentAnalysis == intentOutput
    ensures r.confidence == High
    ensures ReasonDomain(r.routingReason) == Some(r.domain)
  {
    var d := ClassifyDomain(classifierOutput);
    var reason := ReasonPrefix + Label(d) + ReasonSuffix;
    assert reason[|ReasonPrefix|..|reason| - |ReasonSuffix|] == Label(d);
    RoutingInfo(d, intentOutput, High, reason)
  }

  /** Read the domain back out of a routing reason. */
  function ReasonDomain(reason: string): Option<Domain> {
    if |reason| >= |ReasonPrefix| + |ReasonSuffix|
       && reason[..|ReasonPrefix|] == ReasonPrefix
       && reason[|reason| - |ReasonSuffix|..] == ReasonSuffix
    then ParseLabel(reason[|ReasonPrefix|..|reason| - |ReasonSuffix|])
    else None
  }

  /** `get_domain_from_query`: the same domain the full routing record carries,
      whatever the intent analysis says. */
  function GetDomainFromQuery(classifierOutput: string): (d: Domain)
    ensures forall intent :: RouteCustomer(classifierOutput, intent).domain == d
  {
    ClassifyDomain(classifierOutput)
  }

  // ---------------------------------------------------------------------
  // Properties of the classification

  /** Priority follows the list order, not the position in the text: once
      "ecommerce" occurs anywhere, whatever precedes or follows it, the result
      is e-commerce. */
  lemma EcommerceWinsAnywhere(before: string, after: string)
    ensures ClassifyDomain(before + "ecommerce" + after) == Ecommerce
  {
    assert Lower("ecommerce") == "ecommerce";
    LowerKeepsInfix(before, "ecommerce", after);
  }

  /** "banking" beats "telecom" wherever each occurs, unless "ecommerce" occurs too. */
  lemma BankingBeatsTelecom(text: string)
    requires Contains(Lower(text), "banking") && Contains(Lower(text), "telecom")
    ensures ClassifyDomain(text) != Telecom
  {
  }

  /** Normalising an already valid label returns it unchanged. */
  lemma ClassifyIdempotent(d: Domain)
    ensures ClassifyDomain(Label(d)) == d
  {
    assert Lower(Label(d)) == Label(d);
    match d {
      case Ecommerce =>
        ContainsAt("ecommerce", "ecommerce", 0);
      case Banking =>
        LongerNotContained("banking", "ecommerce");
        ContainsAt("banking", "banking", 0);
      case Telecom =>
        LongerNotContained("telecom", "ecommerce");
        SameLengthContained("telecom", "banking");
        ContainsAt("telecom", "telecom", 0);
    }
  }

  /** Texts without any label fall back to e-commerce: an empty completion,
      "retail" and the hyphenated "e-commerce". */
  lemma FallbackExamples()
    ensures ClassifyDomain("") == Ecommerce
    ensures ClassifyDomain("retail") == Ecommerce
    ensures ClassifyDomain("e-commerce") == Ecommerce
  {
    assert Lower("retail") == "retail";
    NotContainsByChar("retail", "banking", 'b');
    NotContainsByChar("retail", "telecom", 'o');
    assert Lower("e-commerce") == "e-commerce";
    NotContainsByChar("e-commerce", "banking", 'b');
    NotContainsByChar("e-commerce", "telecom", 't');
  }

  /** Capitals and surrounding whitespace do not hide a label. */
  lemma PaddedLabelExample()
    ensures ClassifyDomain("  Banking\n") == Banking
  {
    assert Lower("  Banking\n") == "  banking\n";
    NotContainsByChar("  banking\n", "ecommerce", 'e');
    assert OccursAt("  banking\n", "banking", 2);
  }

  /** A text naming telecom first and banking later is classified as banking. */
  lemma ListOrderExample()
    ensures ClassifyDomain("telecom, not banking") == Banking
  {
    assert Lower("telecom, not banking") == "telecom, not banking";
    NotContainsByChar("telecom, not banking", "ecommerce", 'r');
    assert OccursAt("telecom, not banking", "banking", 13);
  }
}
