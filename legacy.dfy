/**
 * What the two early generations of the retrievers share: a `get_receipt(**kwargs)` that
 * answers a plain dictionary, the registry retriever polled five times, and the
 * operator chain that falls back to the registry only when no operator site could even
 * be asked. Both generations carry the same code for these; the older one also copies
 * each registry item's barcode.
 */
module Legacy {
  import opened Base
  import opened DateTimes
  import opened Retrievers
  import opened Polling
  import opened NalogRu
  import Taxcom

  /**
   * The keyword arguments a legacy `get_receipt` looks at, each as the caller passed it
   * and `None` where it was not passed.
   */
  datatype Query = Query(
    fiscalDriveNumber: Option<string>,
    fiscalDocumentNumber: Option<string>,
    fiscalSign: Option<string>,
    totalSum: Option<string>)

  /** Python truthiness of a keyword argument: passed and not the empty string. */
  predicate Given(v: Option<string>)
  {
    v.Some? && v.value != ""
  }

  /**
   * A price, quantity or total of a legacy item: the text the page or `str()` gives, or
   * `str(n / 100)` of an integer amount `n` in kopecks, a float whose printing is not
   * modelled (the integer is kept).
   */
  datatype Value = Text(text: string) | Hundredths(minor: nat)

  /** One item of the dictionary; `barcode` is `None` where the dictionary holds no barcode or `None`. */
  datatype LegacyItem = LegacyItem(name: JsonValue, barcode: Option<JsonValue>, price: Value, quantity: Value, total: Value)

  /** The dictionary a legacy retriever answers. Page texts appear as `JStr`, registry values as they come. */
  datatype LegacyReceipt = LegacyReceipt(
    fiscalDriveNumber: JsonValue,
    fiscalDocumentNumber: JsonValue,
    fiscalSign: JsonValue,
    sellerName: JsonValue,
    sellerIndividualNumber: JsonValue,
    created: DateTime,
    items: seq<LegacyItem>)

  /** A legacy `get_receipt` call: a dictionary, `None`, or an exception. */
  datatype Answer = Got(receipt: LegacyReceipt) | Nothing | Raised(failure: Failure)

  /** The answers the operator loop steps over: `None` (falsy) and `_NotEnoughParameters`. */
  predicate Skippable(a: Answer)
  {
    a.Nothing? || a == Raised(NotEnoughParameters)
  }

  /** An operator site's answer to its one request: none, a status other than 200, or the parsed page. */
  function Fetch<P>(response: Option<Response<P>>, parse: P -> Answer): (a: Answer)
    ensures response.None? ==> a == Raised(ConnectionError)
    ensures response.Some? && response.value.status != OK ==> a == Raised(BadResponse(response.value.status))
    ensures response.Some? && response.value.status == OK ==> a == parse(response.value.body)
  {
    match response
    case None => Raised(ConnectionError)
    case Some(r) => if r.status != OK then Raised(BadResponse(r.status)) else parse(r.body)
  }

  /**
   * A dictionary from the seven values a page parser reads, in order; a missing one
   * stands for the exception (an index out of range, text that is not a timestamp) that
   * ends the parse. Page texts are strings.
   */
  function AssemblePage(drive: Option<string>, document: Option<string>, sign: Option<string>,
                        seller: Option<string>, inn: Option<string>, created: Option<DateTime>,
                        items: Option<seq<LegacyItem>>): (a: Answer)
    ensures a.Got? || a == Raised(MalformedDocument)
    ensures a.Got? <==> drive.Some? && document.Some? && sign.Some? && seller.Some? && inn.Some? && created.Some? && items.Some?
    ensures a.Got? ==> a.receipt == LegacyReceipt(JStr(drive.value), JStr(document.value), JStr(sign.value),
      JStr(seller.value), JStr(inn.value), created.value, items.value)
  {
    if drive.Some? && document.Some? && sign.Some? && seller.Some? && inn.Some? && created.Some? && items.Some? then
      Got(LegacyReceipt(JStr(drive.value), JStr(document.value), JStr(sign.value), JStr(seller.value), JStr(inn.value),
        created.value, items.value))
    else Raised(MalformedDocument)
  }

  /**
   * A Taxcom row of the first layout as both early generations read it: name, quantity,
   * price, total at offsets 0, 1, 2, 3, the quantity with a `,000` suffix dropped or `,`
   * turned into `.`, and all kept as text.
   */
  function TaxcomTextRow(strings: seq<string>, i: nat): (r: Option<LegacyItem>)
    ensures r.Some? <==> i + 3 < |strings|
  {
    if i + 3 >= |strings| then None
    else Some(LegacyItem(JStr(strings[i]), None, Text(strings[i + 2]), Text(Taxcom.V1Quantity(strings[i + 1])),
      Text(strings[i + 3])))
  }

  /**
   * The current parser reads as Decimals exactly the texts the early ones keep: where
   * it reads a first-layout row, the early row exists and holds the same name and the
   * texts of its numbers.
   */
  lemma TaxcomTextRowKeepsText(strings: seq<string>, i: nat)
    ensures Taxcom.V1Row(strings, i).Some? ==>
      var early, current := TaxcomTextRow(strings, i), Taxcom.V1Row(strings, i).value;
      && early.Some?
      && early.value.name == JStr(current.name)
      && current.quantity == Retrievers.Exact(Decimals.ParseDecimal(early.value.quantity.text).value)
      && current.price == Retrievers.Exact(Decimals.ParseDecimal(early.value.price.text).value)
      && current.total == Retrievers.Exact(Decimals.ParseDecimal(early.value.total.text).value)
  {
  }

  /** The early generations keep "1,188" as the text "1.188" and "2,000" as "2". */
  lemma TaxcomTextQuantities()
    ensures Taxcom.V1Quantity("1,188") == "1.188"
    ensures Taxcom.V1Quantity("2,000") == "2"
  {
    Taxcom.PointQuantity("1", "188", ',');
    assert "1" + [','] + "188" == "1,188";
    var q := "1,188";
    assert q[|q| - 4..][1] == '1';
    assert !Text.EndsWith(q, [','] + "000");
    var w := "2,000";
    assert w[|w| - 4..] == [','] + "000";
    assert Text.DropLast(w, 4) == "2";
  }

  // ---------------------------------------------------------------- the registry retriever

  const DefaultMaxTries: nat := 5
  const DefaultRetryDelaySeconds: nat := 5

  /** The registry's timestamps are taken as four hours ahead. */
  const DefaultHourOffset: nat := 4

  /** One element of `document.receipt.items`; `barcode` is `None` where the key is absent. */
  datatype JsonItem = JsonItem(name: JsonValue, barcode: Option<JsonValue>, price: nat, quantity: JsonValue, sum: nat)

  /** The `document.receipt` object. */
  datatype JsonReceipt = JsonReceipt(
    fiscalDriveNumber: JsonValue,
    fiscalDocumentNumber: JsonValue,
    fiscalSign: JsonValue,
    user: JsonValue,
    userInn: JsonValue,
    dateTime: string,
    items: seq<JsonItem>)

  /** A response body: the receipt object, or `None` where `document.receipt` is missing. */
  type JsonBody = Option<JsonReceipt>

  /** One dictionary item: price and sum in hundredths, quantity through `str()`, the barcode only where copied. */
  function ConvertItem(item: JsonItem, keepBarcode: bool): LegacyItem
  {
    LegacyItem(item.name, if keepBarcode then item.barcode else None,
      Hundredths(item.price), Text(Str(item.quantity)), Hundredths(item.sum))
  }

  /** The dictionary built from a body: values copied, `dateTime` read and moved four hours back. */
  function ConvertBody(body: JsonBody, keepBarcode: bool): Answer
  {
    match body
    case None => Raised(MalformedDocument)
    case Some(doc) =>
      match Strptime(doc.dateTime, ApiFormat)
      case None => Raised(MalformedDocument)
      case Some(dt) =>
        match MinusHours(dt, DefaultHourOffset)
        case None => Raised(MalformedDocument)
        case Some(created) =>
          Got(LegacyReceipt(doc.fiscalDriveNumber, doc.fiscalDocumentNumber, doc.fiscalSign, doc.user, doc.userInn,
            created, seq(|doc.items|, k requires 0 <= k < |doc.items| => ConvertItem(doc.items[k], keepBarcode))))
  }

  /** The registry retriever's answer with the number of requests it sent and of its sleeps. */
  datatype DefaultRun = DefaultRun(answer: Answer, requests: nat, sleeps: nat)

  /** The three identifiers the registry retriever insists on. */
  predicate HasIdentifiers(q: Query)
  {
    Given(q.fiscalDriveNumber) && Given(q.fiscalDocumentNumber) && Given(q.fiscalSign)
  }

  /** `_DefaultReceiptRetriever.get_receipt` against the responses its requests receive. */
  function DefaultRetrieve(q: Query, network: seq<Response<JsonBody>>, keepBarcode: bool): DefaultRun
  {
    if !HasIdentifiers(q) then DefaultRun(Raised(NotEnoughParameters), 0, 0)
    else
      var polled := Poll(network, 1, DefaultMaxTries);
      match polled.fetch
      case FetchFailed(f) => DefaultRun(Raised(f), polled.requests, polled.sleeps)
      case Fetched(body) => DefaultRun(ConvertBody(body, keepBarcode), polled.requests, polled.sleeps)
  }

  /** The registry retriever: the parameter check, then the retry loop, attempt by attempt. */
  method DefaultGetReceipt(q: Query, network: seq<Response<JsonBody>>, keepBarcode: bool) returns (d: DefaultRun)
    ensures d == DefaultRetrieve(q, network, keepBarcode)
  {
    if !HasIdentifiers(q) {
      return DefaultRun(Raised(NotEnoughParameters), 0, 0);
    }
    var polled := PollBounded(network, DefaultMaxTries);
    if polled.fetch.FetchFailed? {
      d := DefaultRun(Raised(polled.fetch.failure), polled.requests, polled.sleeps);
    } else {
      d := DefaultRun(ConvertBody(polled.fetch.body, keepBarcode), polled.requests, polled.sleeps);
    }
  }

  /**
   * Without all three identifiers the retriever raises `_NotEnoughParameters` and sends
   * nothing; with them it never raises that, sends at most five requests and sleeps
   * once fewer than it sends.
   */
  lemma DefaultNeedsIdentifiers(q: Query, network: seq<Response<JsonBody>>, keepBarcode: bool)
    ensures var d := DefaultRetrieve(q, network, keepBarcode);
      && (d.answer == Raised(NotEnoughParameters) <==> !HasIdentifiers(q))
      && (!HasIdentifiers(q) ==> d.requests == 0 && d.sleeps == 0)
      && (HasIdentifiers(q) ==> 1 <= d.requests <= DefaultMaxTries && d.sleeps + 1 == d.requests)
      && d.answer != Nothing && d.answer != Raised(OperatorNotSupported)
  {
    PollShape(network, 1, DefaultMaxTries);
  }

  /** k answers 202 and then 200, with k below five, give the converted body after k sleeps. */
  lemma DefaultSucceedsAfterRetries(q: Query, network: seq<Response<JsonBody>>, keepBarcode: bool, k: nat)
    requires HasIdentifiers(q) && k < DefaultMaxTries && k < |network|
    requires AcceptedBefore(network, k) && network[k].status == OK
    ensures DefaultRetrieve(q, network, keepBarcode) == DefaultRun(ConvertBody(network[k].body, keepBarcode), k + 1, k)
  {
    PollSucceeds(network, k, 1, DefaultMaxTries);
  }

  /** Five answers 202 in a row raise "no result after 5 tries". */
  lemma DefaultGivesUp(q: Query, network: seq<Response<JsonBody>>, keepBarcode: bool)
    requires HasIdentifiers(q) && AcceptedBefore(network, DefaultMaxTries)
    ensures DefaultRetrieve(q, network, keepBarcode) == DefaultRun(Raised(NoResultAfter(5)), 5, 4)
  {
    PollGivesUp(network, 1, DefaultMaxTries);
  }

  /**
   * A converted body keeps every value and every item in order: prices and sums in
   * kopecks, quantities through `str()`, the barcode only where copied, and the
   * timestamp exactly four hours before the one the registry prints.
   */
  lemma ConvertBodyFields(body: JsonBody, keepBarcode: bool)
    ensures var a := ConvertBody(body, keepBarcode);
      && (a.Got? || a == Raised(MalformedDocument))
      && (a.Got? <==> body.Some? && Strptime(body.value.dateTime, ApiFormat).Some?
                      && Seconds(Strptime(body.value.dateTime, ApiFormat).value) >= 4 * 3600)
      && (a.Got? ==>
            var doc, r := body.value, a.receipt;
            && r.fiscalDriveNumber == doc.fiscalDriveNumber && r.fiscalDocumentNumber == doc.fiscalDocumentNumber
            && r.fiscalSign == doc.fiscalSign && r.sellerName == doc.user && r.sellerIndividualNumber == doc.userInn
            && Seconds(r.created) == Seconds(Strptime(doc.dateTime, ApiFormat).value) - 4 * 3600
            && |r.items| == |doc.items|
            && forall k :: 0 <= k < |doc.items| ==>
                 && r.items[k].name == doc.items[k].name
                 && r.items[k].price == Hundredths(doc.items[k].price)
                 && r.items[k].quantity == Text(Str(doc.items[k].quantity))
                 && r.items[k].total == Hundredths(doc.items[k].sum)
                 && r.items[k].barcode == (if keepBarcode then doc.items[k].barcode else None))
  {
    if body.Some? && Strptime(body.value.dateTime, ApiFormat).Some? {
      MinusHoursSeconds(Strptime(body.value.dateTime, ApiFormat).value, DefaultHourOffset);
    }
  }

  // ---------------------------------------------------------------- the operator chain and the fallback

  /**
   * `_OperatorReceiptRetriever.get_receipt` over the answers its sites would give, in
   * order, with the number of sites it asked: a falsy answer or `_NotEnoughParameters`
   * passes to the next site, anything else ends the loop, and running out raises
   * `_OperatorNotSupportedException`.
   */
  function Chain(answers: seq<Answer>): (Answer, nat)
  {
    if answers == [] then (Raised(OperatorNotSupported), 0)
    else if Skippable(answers[0]) then
      var rest := Chain(answers[1..]);
      (rest.0, rest.1 + 1)
    else (answers[0], 1)
  }

  /** The operator loop. */
  method OperatorGetReceipt(answers: seq<Answer>) returns (a: Answer, asked: nat)
    ensures (a, asked) == Chain(answers)
  {
    var i := 0;
    while i < |answers|
      invariant i <= |answers|
      invariant forall j :: 0 <= j < i ==> Skippable(answers[j])
      invariant var rest := Chain(answers[i..]); Chain(answers) == (rest.0, rest.1 + i)
    {
      assert answers[i..][1..] == answers[i + 1..];
      if !Skippable(answers[i]) {
        return answers[i], i + 1;
      }
      i := i + 1;
    }
    return Raised(OperatorNotSupported), |answers|;
  }

  /**
   * The chain answers the first site's answer that is neither falsy nor
   * `_NotEnoughParameters`, after asking exactly the sites up to it; when there is none it
   * has asked them all and raises `_OperatorNotSupportedException`. It never answers `None`.
   */
  lemma {:induction false} ChainMeaning(answers: seq<Answer>)
    ensures var r := Chain(answers);
      && !Skippable(r.0)
      && ((forall j :: 0 <= j < |answers| ==> Skippable(answers[j])) ==> r == (Raised(OperatorNotSupported), |answers|))
    ensures forall k :: 0 <= k < |answers| && !Skippable(answers[k]) && (forall j :: 0 <= j < k ==> Skippable(answers[j])) ==>
      Chain(answers) == (answers[k], k + 1)
  {
    if answers != [] {
      ChainMeaning(answers[1..]);
      assert forall j :: 1 <= j < |answers| ==> answers[1..][j - 1] == answers[j];
    }
  }

  /** What a whole legacy retrieval did: its answer, the operator sites asked, and the registry's requests and sleeps. */
  datatype Run = Run(answer: Answer, operatorsAsked: nat, registryRequests: nat, sleeps: nat)

  /** `_FallbackReceiptRetriever.get_receipt`: the registry is asked only when the chain raised `_OperatorNotSupportedException`. */
  function Fallback(chain: (Answer, nat), default: DefaultRun): (r: Run)
    ensures r.operatorsAsked == chain.1
    ensures chain.0 == Raised(OperatorNotSupported) ==> r == Run(default.answer, chain.1, default.requests, default.sleeps)
    ensures chain.0 != Raised(OperatorNotSupported) ==> r == Run(chain.0, chain.1, 0, 0)
  {
    if chain.0 == Raised(OperatorNotSupported) then Run(default.answer, chain.1, default.requests, default.sleeps)
    else Run(chain.0, chain.1, 0, 0)
  }

  /**
   * The whole legacy retrieval over the operator sites' answers: the first site that
   * answers something other than `None` or `_NotEnoughParameters` decides, exceptions
   * included, and the registry is asked exactly when every site was skipped.
   */
  lemma FallbackMeaning(answers: seq<Answer>, default: DefaultRun)
    requires forall j :: 0 <= j < |answers| ==> answers[j] != Raised(OperatorNotSupported)
    ensures var r := Fallback(Chain(answers), default);
      && ((forall j :: 0 <= j < |answers| ==> Skippable(answers[j])) ==>
            r == Run(default.answer, |answers|, default.requests, default.sleeps))
      && (forall k :: 0 <= k < |answers| && !Skippable(answers[k]) && (forall j :: 0 <= j < k ==> Skippable(answers[j])) ==>
            r == Run(answers[k], k + 1, 0, 0))
  {
    ChainMeaning(answers);
  }
}
