/** The vector knowledge base as the tools see it: a search oracle per
    domain whose answer is a Chroma query result (the `documents` field, one
    list of documents per query text), no answer at all when the domain has
    no collection, or a raised exception. Ranking is the oracle's business. */
module Knowledge {
  import opened Text
  import opened Settings

  /** The answer of `search_knowledge(domain, query, n_results)`. */
  datatype Reply =
    | Missing                              // no collection: `None`
    | Found(documents: seq<seq<string>>)   // `results['documents']`
    | Raised(error: string)                // the text of the exception

  /** The search oracle: domain, query text and the number of results asked for. */
  type Search = (Domain, string, nat) -> Reply

  /** `results and results['documents']`: a reply the tools read documents from. */
  predicate HasDocuments(r: Reply) {
    r.Found? && |r.documents| > 0
  }

  /** The documents of the first (only) query text, or none. */
  function FirstDocuments(r: Reply): (docs: seq<string>)
    ensures !HasDocuments(r) ==> docs == []
    ensures HasDocuments(r) ==> docs == r.documents[0]
  {
    if HasDocuments(r) then r.documents[0] else []
  }

  /** The wording of one domain's knowledge tool. */
  datatype Wording = Wording(found: string, none: string, failed: string)

  /** A domain knowledge tool: documents joined by newlines after the found
      prefix, the fixed message when there is nothing to read, the error
      prefix before the exception text. */
  function SearchTool(r: Reply, w: Wording): (s: string)
    ensures r.Raised? ==> s == w.failed + r.error
    ensures !r.Raised? && !HasDocuments(r) ==> s == w.none
    ensures HasDocuments(r) ==> s == w.found + Join(r.documents[0], "\n")
  {
    match r
    case Raised(e) => w.failed + e
    case Missing => w.none
    case Found(docs) => if |docs| > 0 then w.found + Join(docs[0], "\n") else w.none
  }

  /** A reply carrying one empty document list still counts as found: the
      tool prints its prefix with nothing after it. */
  lemma EmptyHitListKeepsPrefix(w: Wording)
    ensures SearchTool(Found([[]]), w) == w.found
  {
  }

  /** When the three wordings are told apart by their openings, an answer
      opens with the found prefix exactly when there were documents to read. */
  lemma FoundPrefixIff(r: Reply, w: Wording)
    requires |w.found| > 0 && |w.failed| > 0 && w.failed[0] != w.found[0]
    requires !StartsWith(w.none, w.found)
    ensures StartsWith(SearchTool(r, w), w.found) <==> HasDocuments(r)
  {
    var s := SearchTool(r, w);
    if r.Raised? {
      assert s[0] == w.failed[0];
    }
  }
}
