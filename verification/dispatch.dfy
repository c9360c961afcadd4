/** One assistant turn as the chat screen produces it: the router classifies
    the query and analyses its intent, the crew of the domain the user chose
    picks one of its two agents from the query and the intent analysis, and
    that agent's run is the reply. Every model call is a parameter: its text,
    or the exception it raised. */
module Dispatch {
  import opened Text
  import opened Wrappers
  import opened Settings
  import opened Router
  import opened Crews

  /** The outcome of one model call. */
  datatype Completion = Completed(text: string) | Failed(error: string)

  /** The model calls of a turn: the domain classifier's and the intent
      analyser's completions for the query, and the crew's run for the agent
      it was handed, the text it was given and the customer's details. */
  datatype LlmRun = LlmRun(
    classify: Completion,
    intent: Completion,
    answer: (Specialist, string, map<string, string>) -> Completion)

  const InvalidDomain := "Invalid domain selected."

  /** The reply when any step raises. */
  function Apology(error: string): string {
    ApologyLead + error + ApologyTail
  }

  // The apology around the error text, written in pieces: the verifier
  // handles short literals far more cheaply than one long one.
  const ApologyLead := "I apologize, but " + "I encountered an error " + "while processing " + "your request: "
  const ApologyTail := ". Please try again " + "or contact support."

  const QueryLabel := "Customer Query:"
  const AnalysisLabel := "Routing Analysis:"

  /** The text handed to the crew: the query and the intent analysis on two
      labelled lines. */
  function EnhancedContext(query: string, intent: string): string {
    QueryLabel + " " + query + "\n" + AnalysisLabel + " " + intent
  }

  /** The agent that answers: the selector of the crew of the domain the
      user chose, applied to the enhanced text; no agent for a domain key the
      system does not know. */
  function ChosenSpecialist(domain: string, query: string, intent: string): (s: Option<Specialist>)
    ensures s.None? <==> ParseLabel(domain).None?
    ensures s.Some? ==> HomeDomain(s.value) == ParseLabel(domain).value
    ensures s.Some? ==>
      (s.value == KeywordSpecialist(ParseLabel(domain).value) <==>
        (Mentions(Lower(query), Keywords(ParseLabel(domain).value))
          || Mentions(Lower(intent), Keywords(ParseLabel(domain).value))))
  {
    match ParseLabel(domain)
    case None => None
    case Some(d) =>
      EnhancedMentions(d, query, intent);
      Some(DetermineBestAgent(d, EnhancedContext(query, intent)))
  }

  /** `get_agent_response`: route first, then dispatch on the chosen domain,
      then run the chosen agent; any raised step becomes the apology. */
  function GetAgentResponse(domain: string, query: string, userInfo: map<string, string>, run: LlmRun): (s: string)
    ensures run.classify.Failed? ==> s == Apology(run.classify.error)
    ensures run.classify.Completed? && run.intent.Failed? ==> s == Apology(run.intent.error)
    ensures run.classify.Completed? && run.intent.Completed? && ParseLabel(domain).None? ==>
      s == InvalidDomain
    ensures run.classify.Completed? && run.intent.Completed? ==>
      match ChosenSpecialist(domain, query, run.intent.text)
      case None => s == InvalidDomain
      case Some(agent) =>
        var reply := run.answer(agent, EnhancedContext(query, run.intent.text), userInfo);
        s == (if reply.Completed? then reply.text else Apology(reply.error))
  {
    match run.classify
    case Failed(e) => Apology(e)
    case Completed(c) =>
      match run.intent
      case Failed(e) => Apology(e)
      case Completed(i) =>
        var routing := RouteCustomer(c, i);
        match ChosenSpecialist(domain, query, routing.intentAnalysis)
        case None => InvalidDomain
        case Some(agent) =>
          match run.answer(agent, EnhancedContext(query, routing.intentAnalysis), userInfo)
          case Failed(e) => Apology(e)
          case Completed(text) => text
  }

  // ---------------------------------------------------------------------
  // The routing recommendation is not used

  /** Whatever the classifier recommends, the reply is the same: the
      recommended domain is computed and then ignored. */
  lemma DispatchIgnoresRecommendation(domain: string, query: string, userInfo: map<string, string>,
    run: LlmRun, other: string)
    requires run.classify.Completed?
    ensures GetAgentResponse(domain, query, userInfo, run)
      == GetAgentResponse(domain, query, userInfo, run.(classify := Completed(other)))
  {
  }

  /** An example of the two disagreeing: a completion naming banking, on the
      telecom screen, is answered by a telecom agent. */
  lemma RecommendationOverruled(query: string, intent: string)
    ensures RouteCustomer("banking", intent).domain == Banking
    ensures HomeDomain(ChosenSpecialist("telecom", query, intent).value) == Telecom
  {
    ClassifyIdempotent(Banking);
  }

  /** The invalid-domain reply appears exactly when both router calls
      complete and the domain key is unknown, provided no model writes that
      reply itself. */
  lemma InvalidDomainIff(domain: string, query: string, userInfo: map<string, string>, run: LlmRun)
    requires forall a, t :: run.answer(a, t, userInfo) != Completed(InvalidDomain)
    ensures GetAgentResponse(domain, query, userInfo, run) == InvalidDomain
      <==> run.classify.Completed? && run.intent.Completed? && ParseLabel(domain).None?
  {
    if run.classify.Failed? {
      ApologyIsNotInvalidDomain(run.classify.error);
    } else if run.intent.Failed? {
      ApologyIsNotInvalidDomain(run.intent.error);
    } else if ParseLabel(domain).Some? {
      var reply := run.answer(
        ChosenSpecialist(domain, query, run.intent.text).value,
        EnhancedContext(query, run.intent.text), userInfo);
      if reply.Failed? {
        ApologyIsNotInvalidDomain(reply.error);
      }
    }
  }

  lemma ApologyIsNotInvalidDomain(error: string)
    ensures Apology(error) != InvalidDomain
  {
    assert |Apology(error)| > |InvalidDomain|;
  }

  // ---------------------------------------------------------------------
  // Keyword selection over the enhanced text

  /** The labels as the crew's selector sees them, lower-cased. */
  lemma LowerLabels()
    ensures Lower(QueryLabel) == "customer query:"
    ensures Lower(AnalysisLabel) == "routing analysis:"
  {
  }

  /** Words that the enhanced text's labels and separators cannot produce:
      none has a space or a line break, and neither lower-cased label
      contains one. */
  predicate Separable(ks: seq<string>) {
    forall i :: 0 <= i < |ks| ==>
      && ' ' !in ks[i] && '\n' !in ks[i]
      && !Contains("customer query:", ks[i]) && !Contains("routing analysis:", ks[i])
  }

  /** Every crew's keywords are separable. */
  lemma LabelsLackKeywords(d: Domain)
    ensures Separable(Keywords(d))
  {
    var ks := Keywords(d);
    KeywordsAreWords(d);
    WordsByIndex(ks);
    LabelsLackCrewKeywords(d);
  }

  /** List membership read at each index. */
  lemma WordsByIndex(ks: seq<string>)
    requires forall k :: k in ks ==> |k| > 0 && ' ' !in k && '\n' !in k && Lower(k) == k
    ensures forall i :: 0 <= i < |ks| ==> ' ' !in ks[i] && '\n' !in ks[i]
  {
    forall i | 0 <= i < |ks|
      ensures ' ' !in ks[i] && '\n' !in ks[i]
    {
      assert ks[i] in ks;
    }
  }

  /** Neither lower-cased label contains a keyword of the crew. */
  lemma LabelsLackCrewKeywords(d: Domain)
    ensures forall i :: 0 <= i < |Keywords(d)| ==>
      !Contains("customer query:", Keywords(d)[i]) && !Contains("routing analysis:", Keywords(d)[i])
  {
    forall i | 0 <= i < |Keywords(d)|
      ensures !Contains("customer query:", Keywords(d)[i]) && !Contains("routing analysis:", Keywords(d)[i])
    {
      match d {
        case Ecommerce => QueryLabelLacksOrderKeyword(i); AnalysisLabelLacksOrderKeyword(i);
        case Banking => QueryLabelLacksTransactionKeyword(i); AnalysisLabelLacksTransactionKeyword(i);
        case Telecom => QueryLabelLacksTechnicalKeyword(i); AnalysisLabelLacksTechnicalKeyword(i);
      }
    }
  }

  /** Each order keyword has a letter the query label lacks. */
  lemma QueryLabelLacksOrderKeyword(i: int)
    requires 0 <= i < |OrderKeywords|
    ensures !Contains("customer query:", OrderKeywords[i])
  {
    var t := "customer query:";
    if i == 0 {
      NotContainsByChar(t, "order", 'd');
    } else if i == 1 {
      NotContainsByChar(t, "tracking", 'a');
    } else if i == 2 {
      NotContainsByChar(t, "shipment", 'h');
    } else if i == 3 {
      NotContainsByChar(t, "delivery", 'd');
    } else {
      NotContainsByChar(t, "status", 'a');
    }
  }

  /** Each order keyword has a letter, or a pair of letters, the analysis label
      lacks: "status" fails on "st". */
  lemma AnalysisLabelLacksOrderKeyword(i: int)
    requires 0 <= i < |OrderKeywords|
    ensures !Contains("routing analysis:", OrderKeywords[i])
  {
    var t := "routing analysis:";
    if i == 0 {
      NotContainsByChar(t, "order", 'd');
    } else if i == 1 {
      NotContainsByChar(t, "tracking", 'c');
    } else if i == 2 {
      NotContainsByChar(t, "shipment", 'h');
    } else if i == 3 {
      NotContainsByChar(t, "delivery", 'd');
    } else {
      NotContainsByPair(t, "status", 0);
    }
  }

  /** Each transaction keyword has a letter the query label lacks. */
  lemma QueryLabelLacksTransactionKeyword(i: int)
    requires 0 <= i < |TransactionKeywords|
    ensures !Contains("customer query:", TransactionKeywords[i])
  {
    var t := "customer query:";
    if i == 0 {
      NotContainsByChar(t, "transaction", 'a');
    } else if i == 1 {
      NotContainsByChar(t, "transfer", 'a');
    } else if i == 2 {
      NotContainsByChar(t, "payment", 'p');
    } else if i == 3 {
      NotContainsByChar(t, "history", 'h');
    } else {
      NotContainsByChar(t, "charge", 'h');
    }
  }

  /** Each transaction keyword has a letter the analysis label lacks. */
  lemma AnalysisLabelLacksTransactionKeyword(i: int)
    requires 0 <= i < |TransactionKeywords|
    ensures !Contains("routing analysis:", TransactionKeywords[i])
  {
    var t := "routing analysis:";
    if i == 0 {
      NotContainsByChar(t, "transaction", 'c');
    } else if i == 1 {
      NotContainsByChar(t, "transfer", 'f');
    } else if i == 2 {
      NotContainsByChar(t, "payment", 'p');
    } else if i == 3 {
      NotContainsByChar(t, "history", 'h');
    } else {
      NotContainsByChar(t, "charge", 'c');
    }
  }

  /** Each technical keyword has a letter the query label lacks. */
  lemma QueryLabelLacksTechnicalKeyword(i: int)
    requires 0 <= i < |TechnicalKeywords|
    ensures !Contains("customer query:", TechnicalKeywords[i])
  {
    var t := "customer query:";
    if i == 0 {
      NotContainsByChar(t, "network", 'n');
    } else if i == 1 {
      NotContainsByChar(t, "signal", 'i');
    } else if i == 2 {
      NotContainsByChar(t, "connection", 'n');
    } else if i == 3 {
      NotContainsByChar(t, "outage", 'a');
    } else if i == 4 {
      NotContainsByChar(t, "technical", 'h');
    } else {
      NotContainsByChar(t, "slow", 'l');
    }
  }

  /** Each technical keyword has a letter, or a pair of letters, the analysis
      label lacks: "signal" fails on "ig". */
  lemma AnalysisLabelLacksTechnicalKeyword(i: int)
    requires 0 <= i < |TechnicalKeywords|
    ensures !Contains("routing analysis:", TechnicalKeywords[i])
  {
    var t := "routing analysis:";
    if i == 0 {
      NotContainsByChar(t, "network", 'e');
    } else if i == 1 {
      NotContainsByPair(t, "signal", 1);
    } else if i == 2 {
      NotContainsByChar(t, "connection", 'c');
    } else if i == 3 {
      NotContainsByChar(t, "outage", 'e');
    } else if i == 4 {
      NotContainsByChar(t, "technical", 'e');
    } else {
      NotContainsByChar(t, "slow", 'w');
    }
  }

  /** Lower-casing a text built of five pieces and two separators. */
  lemma LowerTwoLines(a: string, x: string, b: string, y: string)
    ensures Lower(a + [' '] + x + ['\n'] + b + [' '] + y)
      == Lower(a) + [' '] + Lower(x) + ['\n'] + Lower(b) + [' '] + Lower(y)
  {
    LowerAppend(a + [' '] + x + ['\n'] + b + [' '], y);
    LowerAppend(a + [' '] + x + ['\n'] + b, [' ']);
    LowerAppend(a + [' '] + x + ['\n'], b);
    LowerAppend(a + [' '] + x, ['\n']);
    LowerAppend(a + [' '], x);
    LowerAppend(a, [' ']);
  }

  /** The lower-cased enhanced text, cut at its separators. */
  lemma LowerEnhancedContext(query: string, intent: string)
    ensures Lower(EnhancedContext(query, intent))
      == "customer query:" + [' '] + Lower(query) + ['\n'] + "routing analysis:" + [' '] + Lower(intent)
  {
    assert EnhancedContext(query, intent) == QueryLabel + [' '] + query + ['\n'] + AnalysisLabel + [' '] + intent;
    LowerTwoLines(QueryLabel, query, AnalysisLabel, intent);
    LowerLabels();
  }

  /** A keyword occurs in the lower-cased enhanced text exactly when it occurs
      in the lower-cased query or in the lower-cased intent analysis. */
  lemma KeywordInEnhancedContext(k: string, query: string, intent: string)
    requires ' ' !in k && '\n' !in k
    requires !Contains("customer query:", k) && !Contains("routing analysis:", k)
    ensures Contains(Lower(EnhancedContext(query, intent)), k)
      <==> Contains(Lower(query), k) || Contains(Lower(intent), k)
  {
    LowerEnhancedContext(query, intent);
    var head := "customer query:" + [' '] + Lower(query);
    var tail := "routing analysis:" + [' '] + Lower(intent);
    assert Lower(EnhancedContext(query, intent)) == head + ['\n'] + tail;
    SplitAtSeparator(head, '\n', tail, k);
    SplitAtSeparator("customer query:", ' ', Lower(query), k);
    SplitAtSeparator("routing analysis:", ' ', Lower(intent), k);
  }

  /** The crew selects its keyword agent from the enhanced text exactly when
      the query or the intent analysis mentions one of its keywords: the
      labels and separators contribute none. */
  lemma EnhancedMentions(d: Domain, query: string, intent: string)
    ensures Mentions(Lower(EnhancedContext(query, intent)), Keywords(d))
      <==> Mentions(Lower(query), Keywords(d)) || Mentions(Lower(intent), Keywords(d))
  {
    LabelsLackKeywords(d);
    EnhancedMentionsOf(Keywords(d), query, intent);
  }

  /** The same for any list of words without spaces or line breaks that
      neither label contains. */
  lemma EnhancedMentionsOf(ks: seq<string>, query: string, intent: string)
    requires Separable(ks)
    ensures Mentions(Lower(EnhancedContext(query, intent)), ks)
      <==> Mentions(Lower(query), ks) || Mentions(Lower(intent), ks)
  {
    forall i | 0 <= i < |ks|
      ensures Contains(Lower(EnhancedContext(query, intent)), ks[i])
        <==> Contains(Lower(query), ks[i]) || Contains(Lower(intent), ks[i])
    {
      assert ks[i] in ks;
      KeywordInEnhancedContext(ks[i], query, intent);
    }
    MentionsEither(Lower(EnhancedContext(query, intent)), Lower(query), Lower(intent), ks);
  }

  /** A text mentions a list exactly when one of two others does, if that
      holds keyword by keyword. */
  lemma MentionsEither(t: string, a: string, b: string, ks: seq<string>)
    requires forall i :: 0 <= i < |ks| ==> (Contains(t, ks[i]) <==> Contains(a, ks[i]) || Contains(b, ks[i]))
    ensures Mentions(t, ks) <==> Mentions(a, ks) || Mentions(b, ks)
  {
    if Mentions(t, ks) {
      var k :| k in ks && Contains(t, k);
      var i :| 0 <= i < |ks| && ks[i] == k;
    }
    if Mentions(a, ks) {
      var k :| k in ks && Contains(a, k);
      var i :| 0 <= i < |ks| && ks[i] == k;
    }
    if Mentions(b, ks) {
      var k :| k in ks && Contains(b, k);
      var i :| 0 <= i < |ks| && ks[i] == k;
    }
  }

  /** An intent analysis that mentions a keyword makes the crew pick its
      keyword agent whatever the query says. */
  lemma IntentAloneSelects(d: Domain, query: string, intent: string, k: string)
    requires k in Keywords(d) && Contains(Lower(intent), k)
    ensures ChosenSpecialist(Label(d), query, intent) == Some(KeywordSpecialist(d))
  {
    assert ParseLabel(Label(d)) == Some(d);
  }
}
