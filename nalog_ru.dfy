/**
 * The official-registry retriever: an existence check that must answer 204 No Content
 * (section 15.3.5 of RFC 9110), then the detail request polled on 202, then the
 * conversion of the JSON receipt into a `ParsedReceipt`.
 */
module NalogRu {
  import opened Base
  import opened Text
  import opened Decimals
  import opened DateTimes
  import opened Lib
  import opened Retrievers
  import opened Polling

  const MaxTries: nat := 5
  const RetryDelaySeconds: nat := 5

  /** A JSON scalar as `json.loads` hands it over, and the text `str()` makes of it. */
  datatype JsonValue = JInt(n: nat) | JStr(s: string) | JFloat(repr: string)

  function Str(v: JsonValue): (s: string)
    ensures v.JInt? ==> AllDigits(s) && DigitsValue(s) == v.n
  {
    match v
    case JInt(n) => NatToStringValue(n); NatToString(n)
    case JStr(s) => s
    case JFloat(repr) => repr
  }

  /** One element of `document.receipt.items`: prices and sums are integer minor units. */
  datatype RegistryItem = RegistryItem(name: JsonValue, quantity: JsonValue, price: nat, sum: nat)

  /** The `document.receipt` object of a detail response. */
  datatype RegistryReceipt = RegistryReceipt(
    fiscalDriveNumber: JsonValue,
    fiscalDocumentNumber: JsonValue,
    fiscalSign: JsonValue,
    user: JsonValue,
    userInn: JsonValue,
    dateTime: string,
    items: seq<RegistryItem>)

  /** A detail response body: the receipt object, or `None` when `document.receipt` is missing. */
  type Body = Option<RegistryReceipt>

  /** The two requests, by the values their URLs carry. */
  datatype Request =
    | CheckRequest(document: string, drive: string, sign: string, date: string, sum: string)
    | DetailRequest(drive: string, document: string, sign: string)

  /** The existence-check URL's values: document, drive and sign, `created` as `%Y-%m-%dT%H:%M:%S`, and `amount * 100`. */
  function CheckRequestFor(p: ReceiptParams): (r: Request)
    requires Valid(p.created)
    ensures r.CheckRequest?
  {
    CheckRequest(NatToString(p.fiscalDocumentNumber), NatToString(p.fiscalDriveNumber), NatToString(p.fiscalSign),
      Strftime(p.created, ApiFormat), ToString(MulInt(p.amount, 100)))
  }

  /**
   * The existence check carries the receipt's values so that they read back: the three
   * identifiers as decimal numbers, the timestamp through the same format, and one
   * hundred times the amount, exponent kept.
   */
  lemma CheckRequestReadsBack(p: ReceiptParams)
    requires Valid(p.created)
    ensures var r := CheckRequestFor(p);
      && AllDigits(r.document) && DigitsValue(r.document) == p.fiscalDocumentNumber
      && AllDigits(r.drive) && DigitsValue(r.drive) == p.fiscalDriveNumber
      && AllDigits(r.sign) && DigitsValue(r.sign) == p.fiscalSign
      && Strptime(r.date, ApiFormat) == Some(p.created)
      && ParseDecimal(r.sum) == Some(Dec(p.amount.coef * 100, p.amount.exp))
  {
    NatToStringValue(p.fiscalDocumentNumber);
    NatToStringValue(p.fiscalDriveNumber);
    NatToStringValue(p.fiscalSign);
    ApiFormatRoundTrip(p.created);
    ParseToString(MulInt(p.amount, 100));
  }

  /** The detail URL's values: drive, document and sign. */
  function DetailRequestFor(p: ReceiptParams): (r: Request)
    ensures r.DetailRequest?
    ensures AllDigits(r.drive) && DigitsValue(r.drive) == p.fiscalDriveNumber
    ensures AllDigits(r.document) && DigitsValue(r.document) == p.fiscalDocumentNumber
    ensures AllDigits(r.sign) && DigitsValue(r.sign) == p.fiscalSign
  {
    NatToStringValue(p.fiscalDocumentNumber);
    NatToStringValue(p.fiscalDriveNumber);
    NatToStringValue(p.fiscalSign);
    DetailRequest(NatToString(p.fiscalDriveNumber), NatToString(p.fiscalDocumentNumber), NatToString(p.fiscalSign))
  }

  // ---------------------------------------------------------------- converting the receipt

  /**
   * One item: quantity through `Decimal(str(q)).quantize(Decimal('0.001'))`, price and
   * sum through `(Decimal(n) / 100).quantize(Decimal('0.01'))`. `None` where `Decimal`
   * refuses the quantity text.
   */
  function ConvertItem(item: RegistryItem): Option<ParsedReceiptItem>
  {
    match ParseDecimal(Str(item.quantity))
    case None => None
    case Some(q) =>
      Some(ParsedReceiptItem(Str(item.name), Exact(Quantize(q, 3)),
        Exact(Quantize(DivBy100(Dec(item.price, 0)), 2)), Exact(Quantize(DivBy100(Dec(item.sum, 0)), 2))))
  }

  /**
   * An item converts exactly when its quantity text is a decimal literal; price and total
   * are then exactly the minor units in hundredths, and the quantity has three places,
   * equal in value to the text's number whenever that has at most three.
   */
  lemma ConvertItemFields(item: RegistryItem)
    ensures ConvertItem(item).Some? <==> ParseDecimal(Str(item.quantity)).Some?
    ensures ConvertItem(item).Some? ==>
      var r := ConvertItem(item).value;
      var q := ParseDecimal(Str(item.quantity)).value;
      && r.name == Str(item.name)
      && r.price == Exact(Dec(item.price, -2))
      && r.total == Exact(Dec(item.sum, -2))
      && r.quantity.Exact? && r.quantity.value.exp == -3
      && (q.exp >= -3 ==> SameValue(r.quantity.value, q))
  {
    MinorUnitsExact(item.price);
    MinorUnitsExact(item.sum);
  }

  /** Every item converted, in order; `None` as soon as one cannot be. */
  function ConvertItems(items: seq<RegistryItem>): (r: Option<seq<ParsedReceiptItem>>)
    ensures r.Some? <==> forall k :: 0 <= k < |items| ==> ConvertItem(items[k]).Some?
    ensures r.Some? ==> |r.value| == |items|
    ensures r.Some? ==> forall k :: 0 <= k < |items| ==> r.value[k] == ConvertItem(items[k]).value
  {
    var r := MapAll(items, ConvertItem);
    assert r.Some? ==> forall k :: 0 <= k < |items| ==> Some(r.value[k]) == ConvertItem(items[k]);
    r
  }

  /**
   * The `ParsedReceipt` built from a detail body: identifiers and seller through `str()`,
   * `dateTime` read with `%Y-%m-%dT%H:%M:%S` and no hour offset, items converted.
   */
  function ConvertReceipt(body: Body): (o: Outcome)
    ensures o.Found? || o == Failed(MalformedDocument)
    ensures o.Found? <==> body.Some? && Strptime(body.value.dateTime, ApiFormat).Some? && ConvertItems(body.value.items).Some?
    ensures o.Found? ==>
      var doc := body.value;
      && o.receipt.fiscalDriveNumber == Str(doc.fiscalDriveNumber)
      && o.receipt.fiscalDocumentNumber == Str(doc.fiscalDocumentNumber)
      && o.receipt.fiscalSign == Str(doc.fiscalSign)
      && o.receipt.sellerName == Str(doc.user)
      && o.receipt.sellerIndividualNumber == Str(doc.userInn)
      && Some(o.receipt.created) == Strptime(doc.dateTime, ApiFormat)
      && Some(o.receipt.items) == ConvertItems(doc.items)
  {
    match body
    case None => Failed(MalformedDocument)
    case Some(doc) =>
      match (Strptime(doc.dateTime, ApiFormat), ConvertItems(doc.items))
      case (Some(created), Some(items)) =>
        Found(ParsedReceipt(Str(doc.fiscalDriveNumber), Str(doc.fiscalDocumentNumber), Str(doc.fiscalSign),
          Str(doc.user), Str(doc.userInn), created, items))
      case _ => Failed(MalformedDocument)
  }

  // ---------------------------------------------------------------- the protocol

  /** The result of a `get_receipt` call, the requests it sent in order, and how often it slept. */
  datatype Exchange = Exchange(outcome: Outcome, requests: seq<Request>, sleeps: nat)

  /** The same request `n` times. */
  function Repeat(r: Request, n: nat): (s: seq<Request>)
    ensures |s| == n && forall k :: 0 <= k < n ==> s[k] == r
  {
    seq(n, _ => r)
  }

  /**
   * `get_receipt` over the responses its requests receive: the first answers the
   * existence check, the rest the polled detail requests.
   */
  function Retrieve(p: ReceiptParams, network: seq<Response<Body>>): Exchange
    requires Valid(p.created)
  {
    var check := CheckRequestFor(p);
    if network == [] then Exchange(Failed(ConnectionError), [check], 0)
    else if network[0].status != NO_CONTENT then Exchange(Failed(BadResponse(network[0].status)), [check], 0)
    else
      var polled := Poll(network[1..], 1, MaxTries);
      var requests := [check] + Repeat(DetailRequestFor(p), polled.requests);
      match polled.fetch
      case FetchFailed(f) => Exchange(Failed(f), requests, polled.sleeps)
      case Fetched(body) => Exchange(ConvertReceipt(body), requests, polled.sleeps)
  }

  /** The registry retriever's `get_receipt`: the existence check, then the retry loop, then the conversion. */
  method GetReceipt(p: ReceiptParams, network: seq<Response<Body>>) returns (e: Exchange)
    requires Valid(p.created)
    ensures e == Retrieve(p, network)
  {
    var check := CheckRequestFor(p);
    if network == [] {
      return Exchange(Failed(ConnectionError), [check], 0);
    }
    if network[0].status != NO_CONTENT {
      return Exchange(Failed(BadResponse(network[0].status)), [check], 0);
    }
    var polled := PollBounded(network[1..], MaxTries);
    var requests := [check] + Repeat(DetailRequestFor(p), polled.requests);
    match polled.fetch {
      case FetchFailed(f) =>
        e := Exchange(Failed(f), requests, polled.sleeps);
      case Fetched(body) =>
        e := Exchange(ConvertReceipt(body), requests, polled.sleeps);
    }
  }

  /** The existence check is always sent first; any answer but 204 raises BadResponse and no detail request follows. */
  lemma CheckComesFirst(p: ReceiptParams, network: seq<Response<Body>>)
    requires Valid(p.created)
    ensures var e := Retrieve(p, network);
      && |e.requests| >= 1 && e.requests[0] == CheckRequestFor(p)
      && (network != [] && network[0].status != NO_CONTENT ==>
            e.outcome == Failed(BadResponse(network[0].status)) && |e.requests| == 1 && e.sleeps == 0)
  {
  }

  /**
   * After a 204, between one and `MaxTries` detail requests follow, with one sleep fewer;
   * the call never returns `None`, and a receipt comes only from a 200 answering the
   * last detail request after 202s on all the ones before.
   */
  lemma DetailRequestsBounded(p: ReceiptParams, network: seq<Response<Body>>)
    requires Valid(p.created) && network != [] && network[0].status == NO_CONTENT
    ensures var e := Retrieve(p, network);
      && 2 <= |e.requests| <= MaxTries + 1
      && (forall k :: 1 <= k < |e.requests| ==> e.requests[k] == DetailRequestFor(p))
      && e.sleeps == |e.requests| - 2
      && !e.outcome.NotFound?
      && (e.outcome.Found? ==>
            var last := |e.requests| - 1;
            && last < |network| && network[last].status == OK
            && (forall j :: 1 <= j < last ==> network[j].status == ACCEPTED)
            && e.outcome == ConvertReceipt(network[last].body))
  {
    var rest := network[1..];
    PollShape(rest, 1, MaxTries);
    var polled := Poll(rest, 1, MaxTries);
    forall j | 1 <= j < polled.requests ensures network[j].status == ACCEPTED {
      assert network[j] == rest[j - 1];
    }
  }

  /** `k` 202s, `k < MaxTries`, then a 200: the converted body, after exactly `k` sleeps. */
  lemma SucceedsAfterRetries(p: ReceiptParams, network: seq<Response<Body>>, k: nat)
    requires Valid(p.created) && network != [] && network[0].status == NO_CONTENT
    requires k < MaxTries && k + 1 < |network| && network[k + 1].status == OK
    requires forall j :: 1 <= j <= k ==> network[j].status == ACCEPTED
    ensures Retrieve(p, network).outcome == ConvertReceipt(network[k + 1].body)
    ensures Retrieve(p, network).sleeps == k
    ensures |Retrieve(p, network).requests| == k + 2
  {
    var rest := network[1..];
    forall j | 0 <= j < k ensures rest[j].status == ACCEPTED {
      assert rest[j] == network[j + 1];
    }
    PollSucceeds(rest, k, 1, MaxTries);
  }

  /** 202s on all `MaxTries` detail requests: BadResponse "no result after 5 tries". */
  lemma GivesUpAfterMaxTries(p: ReceiptParams, network: seq<Response<Body>>)
    requires Valid(p.created) && network != [] && network[0].status == NO_CONTENT
    requires |network| > MaxTries && forall j :: 1 <= j <= MaxTries ==> network[j].status == ACCEPTED
    ensures Retrieve(p, network).outcome == Failed(NoResultAfter(MaxTries))
    ensures Retrieve(p, network).sleeps == MaxTries - 1
  {
    var rest := network[1..];
    forall j | 0 <= j < MaxTries ensures rest[j].status == ACCEPTED {
      assert rest[j] == network[j + 1];
    }
    PollGivesUp(rest, 1, MaxTries);
  }

  /** After `k` 202s, a detail status other than 200 or 202 raises BadResponse for that status at once. */
  lemma RejectsOtherStatus(p: ReceiptParams, network: seq<Response<Body>>, k: nat)
    requires Valid(p.created) && network != [] && network[0].status == NO_CONTENT
    requires k < MaxTries && k + 1 < |network|
    requires network[k + 1].status != OK && network[k + 1].status != ACCEPTED
    requires forall j :: 1 <= j <= k ==> network[j].status == ACCEPTED
    ensures Retrieve(p, network).outcome == Failed(BadResponse(network[k + 1].status))
    ensures Retrieve(p, network).sleeps == k
  {
    var rest := network[1..];
    forall j | 0 <= j < k ensures rest[j].status == ACCEPTED {
      assert rest[j] == network[j + 1];
    }
    PollRejects(rest, k, 1, MaxTries);
  }
}
