/** Worked examples of the specialist selectors on concrete queries. */
module CrewExamples {
  import opened Text
  import opened Crews

  /** Matching is by substring, not by word. */
  lemma SubstringNotWord()
    ensures EcommerceBestAgent("borders") == OrderManagement
    ensures EcommerceBestAgent("reorder") == OrderManagement
    ensures EcommerceBestAgent("Where is my ORDER?") == OrderManagement
  {
    assert Lower("borders") == "borders";
    assert OccursAt("borders", "order", 1);
    assert Lower("reorder") == "reorder";
    assert OccursAt("reorder", "order", 2);
    assert Lower("Where is my ORDER?") == "where is my order?";
    assert OccursAt("where is my order?", "order", 12);
  }

  /** A refund question reaches the general e-commerce representative. */
  lemma RefundGoesToService()
    ensures EcommerceBestAgent("Can I get a refund?") == EcommerceService
  {
    NoOrderKeywordInRefundQuestion();
    assert Lower("Can I get a refund?") == "can i get a refund?";
  }

  lemma NoOrderKeywordInRefundQuestion()
    ensures !Mentions("can i get a refund?", OrderKeywords)
  {
    forall k | 0 <= k < |OrderKeywords|
      ensures !Contains("can i get a refund?", OrderKeywords[k])
    {
      RefundQuestionLacks(k);
    }
    NoneMentioned("can i get a refund?", OrderKeywords);
  }

  /** Each order keyword has a letter the refund question lacks. */
  lemma RefundQuestionLacks(k: int)
    requires 0 <= k < |OrderKeywords|
    ensures !Contains("can i get a refund?", OrderKeywords[k])
  {
    var t := "can i get a refund?";
    if k == 0 {
      NotContainsByChar(t, "order", 'o');
    } else if k == 1 {
      NotContainsByChar(t, "tracking", 'k');
    } else if k == 2 {
      NotContainsByChar(t, "shipment", 's');
    } else if k == 3 {
      NotContainsByChar(t, "delivery", 'l');
    } else {
      NotContainsByChar(t, "status", 's');
    }
  }

  /** "charged" contains "charge". */
  lemma ChargedGoesToAnalyst()
    ensures BankingBestAgent("Why was I charged $25 ATM fee?") == TransactionAnalyst
  {
    assert "Why was I charged $25 ATM fee?" == "Why was I " + "charge" + "d $25 ATM fee?";
    LowerKeepsInfix("Why was I ", "charge", "d $25 ATM fee?");
  }

  /** The balance question, lower-cased; written in pieces, which the
      verifier indexes far more cheaply than one long literal. */
  const BalanceQuestion := "what's my " + "balance for " + "account acc001?"

  /** A balance question reaches the account specialist. */
  lemma BalanceGoesToAccountSpecialist()
    ensures BankingBestAgent("What's my balance for account ACC001?") == AccountSpecialist
  {
    NoTransactionKeywordInBalanceQuestion();
    var a, b, c := "What's my ", "balance for ", "account ACC001?";
    assert "What's my balance for account ACC001?" == a + b + c;
    LowerAppend(a + b, c);
    LowerAppend(a, b);
    assert Lower(a) == "what's my " && Lower(b) == "balance for " && Lower(c) == "account acc001?";
  }

  lemma NoTransactionKeywordInBalanceQuestion()
    ensures !Mentions(BalanceQuestion, TransactionKeywords)
  {
    forall k | 0 <= k < |TransactionKeywords|
      ensures !Contains(BalanceQuestion, TransactionKeywords[k])
    {
      BalanceQuestionLacks(k);
    }
    NoneMentioned(BalanceQuestion, TransactionKeywords);
  }

  /** Each transaction keyword has a letter, or a pair of letters, the
      balance question lacks: "transfer" fails on "tr", since no "t" of the
      question precedes an "r". */
  lemma BalanceQuestionLacks(k: int)
    requires 0 <= k < |TransactionKeywords|
    ensures !Contains(BalanceQuestion, TransactionKeywords[k])
  {
    var t := BalanceQuestion;
    if k == 0 {
      NotContainsByChar(t, "transaction", 'i');
    } else if k == 1 {
      NotContainsByPair(t, "transfer", 0);
    } else if k == 2 {
      NotContainsByChar(t, "payment", 'p');
    } else if k == 3 {
      NotContainsByChar(t, "history", 'i');
    } else {
      NotContainsByChar(t, "charge", 'g');
    }
  }

  /** A slow connection goes to technical support. */
  lemma SlowGoesToTechnicalSupport()
    ensures TelecomBestAgent("My internet is very slow today") == TechnicalSupport
  {
    assert "My internet is very slow today" == "My internet is very " + "slow" + " today";
    LowerKeepsInfix("My internet is very ", "slow", " today");
  }

  /** The data-usage question, lower-cased; written in pieces, which the
      verifier indexes far more cheaply than one long literal. */
  const UsageQuestion := "how much " + "data have " + "i used on " + "555-0103?"

  /** A data-usage question goes to billing. */
  lemma UsageGoesToBilling()
    ensures TelecomBestAgent("How much data have I used on 555-0103?") == BillingSpecialist
  {
    NoTechnicalKeywordInUsageQuestion();
    var a, b, c, d := "How much ", "data have ", "I used on ", "555-0103?";
    assert "How much data have I used on 555-0103?" == a + b + c + d;
    LowerAppend(a + b + c, d);
    LowerAppend(a + b, c);
    LowerAppend(a, b);
    assert Lower(a) == "how much " && Lower(b) == "data have " && Lower(c) == "i used on " && Lower(d) == d;
  }

  lemma NoTechnicalKeywordInUsageQuestion()
    ensures !Mentions(UsageQuestion, TechnicalKeywords)
  {
    forall k | 0 <= k < |TechnicalKeywords|
      ensures !Contains(UsageQuestion, TechnicalKeywords[k])
    {
      UsageQuestionLacks(k);
    }
    NoneMentioned(UsageQuestion, TechnicalKeywords);
  }

  /** Each technical keyword has a letter, or a pair of letters, the usage
      question lacks: "connection" fails on "nn". */
  lemma UsageQuestionLacks(k: int)
    requires 0 <= k < |TechnicalKeywords|
    ensures !Contains(UsageQuestion, TechnicalKeywords[k])
  {
    var t := UsageQuestion;
    if k == 0 {
      NotContainsByChar(t, "network", 'k');
    } else if k == 1 {
      NotContainsByChar(t, "signal", 'g');
    } else if k == 2 {
      NotContainsByPair(t, "connection", 2);
    } else if k == 3 {
      NotContainsByChar(t, "outage", 'g');
    } else if k == 4 {
      NotContainsByChar(t, "technical", 'l');
    } else {
      NotContainsByChar(t, "slow", 'l');
    }
  }
}
