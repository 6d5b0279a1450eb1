/**
 * The receipt sources as one sum type, what each answers for a set of parameters, and the
 * factories that pick the configured source. Each source talks to its own server, given
 * here by an environment; the combinator asks its sources in order.
 */
module Sources {
  import opened Base
  import opened DateTimes
  import opened Lib
  import opened Retrievers
  import NalogRu
  import Taxcom
  import PlatformaOfd
  import Combined

  datatype Retriever =
    | NalogRuRetriever
    | TaxcomRetriever
    | PlatformaOfdRetriever
    | CombinedRetriever(sources: seq<Retriever>)

  /** What each server answers: the registry's responses in order, the sites' page per request. */
  datatype Environment = Environment(
    registry: seq<Response<NalogRu.Body>>,
    taxcom: Taxcom.TaxcomRequest -> Option<Response<Taxcom.TaxcomPage>>,
    platforma: PlatformaOfd.PlatformaRequest -> Option<Response<PlatformaOfd.PlatformaPage>>)

  /** `get_receipt` of any source. */
  function Answer(r: Retriever, p: ReceiptParams, env: Environment): (o: Outcome)
    requires Valid(p.created)
    ensures r.CombinedRetriever? ==> o.NotFound? || o.Found?
    decreases r
  {
    match r
    case NalogRuRetriever => NalogRu.Retrieve(p, env.registry).outcome
    case TaxcomRetriever => Taxcom.Retrieve(p, env.taxcom)
    case PlatformaOfdRetriever => PlatformaOfd.Retrieve(p, env.platforma)
    case CombinedRetriever(sources) =>
      var answers := seq(|sources|, k requires 0 <= k < |sources| => Answer(sources[k], p, env));
      match Combined.FirstFound(answers).0
      case Some(receipt) => Found(receipt)
      case None => NotFound
  }

  /** `get_receipt_retriever`: the official registry alone, not the combinator. */
  function GetReceiptRetriever(): (r: Retriever)
    ensures r == NalogRuRetriever
  {
    NalogRuRetriever
  }

  /** `get_available_receipt_retrievers`: a list holding only the official registry source. */
  function AvailableReceiptRetrievers(): (rs: seq<Retriever>)
    ensures rs == [GetReceiptRetriever()]
  {
    [NalogRuRetriever]
  }

  /**
   * The configured source answers exactly what the registry protocol gives, and a
   * combinator over only the available sources finds a receipt exactly when it does.
   */
  lemma ConfiguredIsRegistry(p: ReceiptParams, env: Environment)
    requires Valid(p.created)
    ensures Answer(GetReceiptRetriever(), p, env) == NalogRu.Retrieve(p, env.registry).outcome
    ensures var o := NalogRu.Retrieve(p, env.registry).outcome;
      Answer(CombinedRetriever(AvailableReceiptRetrievers()), p, env) == if o.Found? then o else NotFound
  {
    var o := NalogRu.Retrieve(p, env.registry).outcome;
    var sources := AvailableReceiptRetrievers();
    var answers := seq(|sources|, k requires 0 <= k < |sources| => Answer(sources[k], p, env));
    assert answers[0] == o;
    assert answers == [o] + [];
    if !Truthy(o) {
      Combined.PassesOver(o, []);
    }
  }
}
