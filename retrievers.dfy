/**
 * What every receipt source shares: the parsed receipt and its items, the ways a
 * `get_receipt` call can end, and the HTTP responses the sources read.
 */
module Retrievers {
  import opened Base
  import opened Decimals
  import opened DateTimes

  /**
   * A number field of a parsed item. The sources build `Decimal`s; the Platforma OFD
   * barcode layout passes the page text through unconverted, which Python's dynamic
   * typing allows, so such a field holds the raw text.
   */
  datatype Number = Exact(value: Dec) | Raw(text: string)

  /** `ParsedReceiptItem`, a frozen record: name, quantity, price, total, in that positional order. */
  datatype ParsedReceiptItem = ParsedReceiptItem(name: string, quantity: Number, price: Number, total: Number)

  /**
   * `ParsedReceipt`, a frozen record: drive number, document number, fiscal sign,
   * seller name, seller tax id, timestamp and items, in that positional order.
   */
  datatype ParsedReceipt = ParsedReceipt(
    fiscalDriveNumber: string,
    fiscalDocumentNumber: string,
    fiscalSign: string,
    sellerName: string,
    sellerIndividualNumber: string,
    created: DateTime,
    items: seq<ParsedReceiptItem>)

  /** Why a source raised instead of answering. */
  datatype Failure =
    | BadResponse(status: nat)        // an HTTP status the protocol does not expect
    | NoResultAfter(tries: nat)       // the registry still answered 202 on the last allowed try
    | MalformedDocument               // a missing key, unparsable text or out-of-range index in the body
    | ConnectionError                 // no response at all
    | NotEnoughParameters             // a legacy source lacking one of the values it needs
    | OperatorNotSupported            // no legacy operator source had the values it needs

  /** A `get_receipt` call: a receipt, Python's `None`, or an exception. */
  datatype Outcome = Found(receipt: ParsedReceipt) | NotFound | Failed(failure: Failure)

  /**
   * Python truthiness of a `get_receipt` result: a dataclass instance without `__bool__`
   * or `__len__` is always true, `None` is false.
   */
  predicate Truthy(o: Outcome)
  {
    o.Found?
  }

  /**
   * A receipt from its seven parts as a page parser reads them, in order; a missing part
   * stands for the exception (an index out of range, text that is not a number or not
   * a timestamp) that ends the parse.
   */
  function Assemble(drive: Option<string>, document: Option<string>, sign: Option<string>,
                    seller: Option<string>, inn: Option<string>, created: Option<DateTime>,
                    items: Option<seq<ParsedReceiptItem>>): (o: Outcome)
    ensures o.Found? || o == Failed(MalformedDocument)
    ensures o.Found? <==> drive.Some? && document.Some? && sign.Some? && seller.Some? && inn.Some? && created.Some? && items.Some?
    ensures o.Found? ==> o.receipt == ParsedReceipt(drive.value, document.value, sign.value, seller.value, inn.value, created.value, items.value)
  {
    if drive.Some? && document.Some? && sign.Some? && seller.Some? && inn.Some? && created.Some? && items.Some? then
      Found(ParsedReceipt(drive.value, document.value, sign.value, seller.value, inn.value, created.value, items.value))
    else Failed(MalformedDocument)
  }

  /** One HTTP response: its status code and whatever of its body the source reads. */
  datatype Response<B> = Response(status: nat, body: B)

  /** Status codes of section 15 of RFC 9110 that the sources compare against. */
  const OK: nat := 200
  const ACCEPTED: nat := 202
  const NO_CONTENT: nat := 204
}
