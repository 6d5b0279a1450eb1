/**
 * The second generation of the retrievers: Platforma OFD with a stride of eight texts
 * in both item layouts, Taxcom with the two layouts of the current parser but quantities
 * kept as text, and the operator chain [Platforma OFD, Taxcom] in front of the registry.
 */
module LegacyLib {
  import opened Base
  import opened Text
  import opened DateTimes
  import opened Retrievers
  import opened StrideRows
  import opened NalogRu
  import opened Legacy
  import Taxcom
  import PlatformaOfd

  // ---------------------------------------------------------------- Platforma OFD

  /**
   * What the parser's queries find on a Platforma OFD page of that time: the
   * `glyphicon-download-alt` icon, the "штриховой код EAN13" header, the right-column
   * text of the row holding a caption, the `check-top` div texts, and the item texts.
   */
  datatype OldPlatformaPage = OldPlatformaPage(
    hasDownloadIcon: bool,
    hasBarcodeHeader: bool,
    rightColumn: map<string, string>,
    checkTop: seq<string>,
    strings: seq<string>)

  const DriveCaption: string := "заводской номер фискального накопителя"
  const DocumentCaption: string := "порядковый номер фискального документа"
  const SignCaption: string := "фискальный признак документа"
  const CreatedCaption: string := "Приход"

  function SecondColumnText(page: OldPlatformaPage, caption: string): (r: Option<string>)
    ensures r.Some? <==> caption in page.rightColumn
    ensures r.Some? ==> r.value == page.rightColumn[caption]
  {
    if caption in page.rightColumn then Some(page.rightColumn[caption]) else None
  }

  /** `_get_created`: the "Приход" text read with `%d.%m.%Y %H:%M` and moved seven hours back, as Taxcom's. */
  function PlatformaCreated(page: OldPlatformaPage): Option<DateTime>
  {
    match SecondColumnText(page, CreatedCaption)
    case None => None
    case Some(t) => Taxcom.ReadCreated(t)
  }

  /**
   * The row of eight texts at `i`, with the total at `totalOffset`: the stripped name,
   * quantity and price out of the second text split on " х ", all kept as text.
   */
  function PlatformaRow(strings: seq<string>, i: nat, totalOffset: nat): (r: Option<LegacyItem>)
    requires 1 <= totalOffset
    ensures r.Some? <==> i + totalOffset < |strings| && |Split(strings[i + 1], PlatformaOfd.Times)| >= 2
    ensures r.Some? ==> var parts := Split(strings[i + 1], PlatformaOfd.Times);
      r.value == LegacyItem(JStr(Strip(strings[i])), None, Text(parts[1]), Text(parts[0]), Text(strings[i + totalOffset]))
  {
    if i + totalOffset >= |strings| then None
    else
      var parts := Split(strings[i + 1], PlatformaOfd.Times);
      if |parts| < 2 then None
      else Some(LegacyItem(JStr(Strip(strings[i])), None, Text(parts[1]), Text(parts[0]), Text(strings[i + totalOffset])))
  }

  /** A receipt with barcodes: the total is the sixth text of its row. */
  function BarcodeRow(strings: seq<string>, i: nat): Option<LegacyItem>
  {
    PlatformaRow(strings, i, 5)
  }

  /** A receipt without barcodes: the total is the fourth text of its row. */
  function PlainRow(strings: seq<string>, i: nat): Option<LegacyItem>
  {
    PlatformaRow(strings, i, 3)
  }

  /** `_get_items` or `_get_items_with_no_barcodes`: rows at `range(0, len, 8)`. */
  function PlatformaItems(page: OldPlatformaPage): Option<seq<LegacyItem>>
  {
    if page.hasBarcodeHeader then RowsFrom(page.strings, 0, |page.strings|, 8, BarcodeRow)
    else RowsFrom(page.strings, 0, |page.strings|, 8, PlainRow)
  }

  /** The two stride loops. */
  method GetPlatformaItems(page: OldPlatformaPage) returns (items: Option<seq<LegacyItem>>)
    ensures items == PlatformaItems(page)
  {
    if page.hasBarcodeHeader {
      items := CollectRows(page.strings, |page.strings|, 8, BarcodeRow);
    } else {
      items := CollectRows(page.strings, |page.strings|, 8, PlainRow);
    }
  }

  /**
   * Both layouts read one item per start `i` in `range(0, len, 8)`, item `i / 8` from the
   * row at `i`, with the total at `i + 5` when the page has the barcode header and at
   * `i + 3` when it has not.
   */
  lemma PlatformaItemsAtStarts(page: OldPlatformaPage)
    ensures var r, s := PlatformaItems(page), page.strings;
      var offset := if page.hasBarcodeHeader then 5 else 3;
      && (r.Some? <==> forall i :: 0 <= i < |s| && i % 8 == 0 ==> PlatformaRow(s, i, offset).Some?)
      && (r.Some? ==> |r.value| == RowCount(|s|, 8) && forall i :: 0 <= i < |s| && i % 8 == 0 ==>
            i / 8 < |r.value| && r.value[i / 8] == PlatformaRow(s, i, offset).value)
  {
    if page.hasBarcodeHeader {
      RowsWithOffset(page.strings, 5);
    } else {
      RowsWithOffset(page.strings, 3);
    }
  }

  /** One layout of `PlatformaItemsAtStarts`, the total offset fixed. */
  lemma RowsWithOffset(s: seq<string>, offset: nat)
    requires offset == 5 || offset == 3
    ensures var r := RowsFrom(s, 0, |s|, 8, if offset == 5 then BarcodeRow else PlainRow);
      && (r.Some? <==> forall i :: 0 <= i < |s| && i % 8 == 0 ==> PlatformaRow(s, i, offset).Some?)
      && (r.Some? ==> |r.value| == RowCount(|s|, 8) && forall i :: 0 <= i < |s| && i % 8 == 0 ==>
            i / 8 < |r.value| && r.value[i / 8] == PlatformaRow(s, i, offset).value)
  {
    var row := if offset == 5 then BarcodeRow else PlainRow;
    RowsAtStarts(s, |s|, 8, row);
    assert forall i: nat :: row(s, i) == PlatformaRow(s, i, offset);
  }

  /** `_parse_html`: no download icon means no receipt, otherwise every field read. */
  function PlatformaParse(page: OldPlatformaPage): (a: Answer)
    ensures a.Nothing? <==> !page.hasDownloadIcon
    ensures a.Got? ==>
      && |page.checkTop| >= 4
      && a.receipt.sellerName == JStr(page.checkTop[1])
      && a.receipt.sellerIndividualNumber == JStr(DropFirst(page.checkTop[3], 4))
      && DriveCaption in page.rightColumn && a.receipt.fiscalDriveNumber == JStr(page.rightColumn[DriveCaption])
      && DocumentCaption in page.rightColumn && a.receipt.fiscalDocumentNumber == JStr(page.rightColumn[DocumentCaption])
      && SignCaption in page.rightColumn && a.receipt.fiscalSign == JStr(page.rightColumn[SignCaption])
      && Some(a.receipt.created) == PlatformaCreated(page)
      && Some(a.receipt.items) == PlatformaItems(page)
  {
    if !page.hasDownloadIcon then Nothing
    else
      AssemblePage(SecondColumnText(page, DriveCaption), SecondColumnText(page, DocumentCaption),
        SecondColumnText(page, SignCaption),
        if |page.checkTop| >= 2 then Some(page.checkTop[1]) else None,
        if |page.checkTop| >= 4 then Some(DropFirst(page.checkTop[3], 4)) else None,
        PlatformaCreated(page),
        PlatformaItems(page))
  }

  /** The values of the Platforma OFD request: drive number and fiscal sign as passed. */
  datatype PlatformaQuery = PlatformaQuery(fn: string, fp: string)

  /** `_PlatformaOfdOperatorReceiptRetriever.get_receipt`. */
  function PlatformaRetrieve(q: Query, server: PlatformaQuery -> Option<Response<OldPlatformaPage>>): (a: Answer)
    ensures a == Raised(NotEnoughParameters) <==> !(Given(q.fiscalDriveNumber) && Given(q.fiscalSign))
    ensures a != Raised(OperatorNotSupported)
    ensures Given(q.fiscalDriveNumber) && Given(q.fiscalSign) ==>
      a == Fetch(server(PlatformaQuery(q.fiscalDriveNumber.value, q.fiscalSign.value)), PlatformaParse)
  {
    if !(Given(q.fiscalDriveNumber) && Given(q.fiscalSign)) then Raised(NotEnoughParameters)
    else Fetch(server(PlatformaQuery(q.fiscalDriveNumber.value, q.fiscalSign.value)), PlatformaParse)
  }

  // ---------------------------------------------------------------- Taxcom

  /** The second layout's row: name, quantity, price, total at offsets 0, 1, 2, 4, a `.000` suffix dropped, all kept as text. */
  function TaxcomV2TextRow(strings: seq<string>, i: nat): (r: Option<LegacyItem>)
    ensures r.Some? <==> i + 4 < |strings|
  {
    if i + 4 >= |strings| then None
    else Some(LegacyItem(JStr(strings[i]), None, Text(strings[i + 2]), Text(Taxcom.V2Quantity(strings[i + 1])),
      Text(strings[i + 4])))
  }

  /** `get_items` of the layout: every 9 texts below `len - 8`, or every 12 over the whole list. */
  function TaxcomItems(layout: Taxcom.Layout, strings: seq<string>): Option<seq<LegacyItem>>
  {
    if layout == Taxcom.V1 then RowsFrom(strings, 0, |strings| - 8, 9, TaxcomTextRow)
    else RowsFrom(strings, 0, |strings|, 12, TaxcomV2TextRow)
  }

  method GetTaxcomItems(layout: Taxcom.Layout, strings: seq<string>) returns (items: Option<seq<LegacyItem>>)
    ensures items == TaxcomItems(layout, strings)
  {
    if layout == Taxcom.V1 {
      items := CollectRows(strings, |strings| - 8, 9, TaxcomTextRow);
    } else {
      items := CollectRows(strings, |strings|, 12, TaxcomV2TextRow);
    }
  }

  /**
   * The rows sit where the current parser reads them: the first layout never fails and
   * reads `RowCount(len - 8, 9)` rows; the second reads `RowCount(len, 12)` rows and fails
   * exactly when the last start lacks its fifth text.
   */
  lemma TaxcomItemsAtStarts(layout: Taxcom.Layout, strings: seq<string>)
    ensures var r := TaxcomItems(layout, strings);
      && (layout == Taxcom.V1 ==>
            && r.Some? && |r.value| == RowCount(|strings| - 8, 9)
            && forall i :: 0 <= i < |strings| - 8 && i % 9 == 0 ==> i / 9 < |r.value| && r.value[i / 9] == TaxcomTextRow(strings, i).value)
      && (layout == Taxcom.V2 ==> (r.Some? <==> forall i :: 0 <= i < |strings| && i % 12 == 0 ==> i + 4 < |strings|))
      && (layout == Taxcom.V2 && r.Some? ==>
            && |r.value| == RowCount(|strings|, 12)
            && forall i :: 0 <= i < |strings| && i % 12 == 0 ==> i / 12 < |r.value| && r.value[i / 12] == TaxcomV2TextRow(strings, i).value)
  {
    if layout == Taxcom.V1 {
      RowsAtStarts(strings, |strings| - 8, 9, TaxcomTextRow);
    } else {
      RowsAtStarts(strings, |strings|, 12, TaxcomV2TextRow);
    }
  }

  /** `_parse_html`: no receipt title means no receipt; otherwise the fields of the layout the page asks for. */
  function TaxcomParse(page: Taxcom.TaxcomPage): (a: Answer)
    ensures a.Nothing? <==> !page.hasReceiptTitle
    ensures a.Got? ==>
      var layout := Taxcom.LayoutOf(page);
      && Some(a.receipt.fiscalDriveNumber) == MapJStr(Taxcom.SecondColumnText(layout, page, Taxcom.DriveLabel))
      && Some(a.receipt.fiscalDocumentNumber) == MapJStr(Taxcom.SecondColumnText(layout, page, Taxcom.DocumentLabel))
      && Some(a.receipt.fiscalSign) == MapJStr(Taxcom.SecondColumnText(layout, page, Taxcom.SignLabel))
      && Some(a.receipt.sellerName) == MapJStr(Taxcom.ReportSpan(page, 1))
      && Some(a.receipt.sellerIndividualNumber) == MapJStr(Taxcom.ReportSpan(page, 2))
      && Some(a.receipt.created) == Taxcom.CreatedOf(layout, page)
      && Some(a.receipt.items) == TaxcomItems(layout, page.strings)
  {
    if !page.hasReceiptTitle then Nothing
    else
      var layout := Taxcom.LayoutOf(page);
      AssemblePage(Taxcom.SecondColumnText(layout, page, Taxcom.DriveLabel),
        Taxcom.SecondColumnText(layout, page, Taxcom.DocumentLabel),
        Taxcom.SecondColumnText(layout, page, Taxcom.SignLabel),
        Taxcom.ReportSpan(page, 1), Taxcom.ReportSpan(page, 2),
        Taxcom.CreatedOf(layout, page), TaxcomItems(layout, page.strings))
  }

  /** A page text as a dictionary value. */
  function MapJStr(t: Option<string>): Option<JsonValue>
  {
    match t
    case None => None
    case Some(s) => Some(JStr(s))
  }

  /** The values of the Taxcom request: fiscal sign and total sum as passed. */
  datatype TaxcomQuery = TaxcomQuery(fp: string, s: string)

  /** `_TaxcomOperatorReceiptRetriever.get_receipt`. */
  function TaxcomRetrieve(q: Query, server: TaxcomQuery -> Option<Response<Taxcom.TaxcomPage>>): (a: Answer)
    ensures a == Raised(NotEnoughParameters) <==> !(Given(q.fiscalSign) && Given(q.totalSum))
    ensures a != Raised(OperatorNotSupported)
    ensures Given(q.fiscalSign) && Given(q.totalSum) ==>
      a == Fetch(server(TaxcomQuery(q.fiscalSign.value, q.totalSum.value)), TaxcomParse)
  {
    if !(Given(q.fiscalSign) && Given(q.totalSum)) then Raised(NotEnoughParameters)
    else Fetch(server(TaxcomQuery(q.fiscalSign.value, q.totalSum.value)), TaxcomParse)
  }

  // ---------------------------------------------------------------- the chain

  /** The three servers: the two operator sites by request, the registry by the responses its requests receive. */
  datatype Servers = Servers(
    platforma: PlatformaQuery -> Option<Response<OldPlatformaPage>>,
    taxcom: TaxcomQuery -> Option<Response<Taxcom.TaxcomPage>>,
    registry: seq<Response<JsonBody>>)

  /** The operator sites in the order `_OperatorReceiptRetriever` tries them. */
  function OperatorAnswers(q: Query, servers: Servers): (answers: seq<Answer>)
    ensures |answers| == 2
    ensures forall j :: 0 <= j < |answers| ==> answers[j] != Raised(OperatorNotSupported)
  {
    [PlatformaRetrieve(q, servers.platforma), TaxcomRetrieve(q, servers.taxcom)]
  }

  /** `get_receipt_retriever().get_receipt(**kwargs)`: the chain, falling back to the registry without barcodes. */
  function Retrieve(q: Query, servers: Servers): Run
  {
    Fallback(Chain(OperatorAnswers(q, servers)), DefaultRetrieve(q, servers.registry, false))
  }

  /**
   * Platforma OFD decides whenever it answers a receipt or raises anything but
   * `_NotEnoughParameters`; Taxcom is asked next; the registry only when both were
   * skipped. The retrieval never answers `None` or `_OperatorNotSupportedException`.
   */
  lemma RetrieveOrder(q: Query, servers: Servers)
    ensures var r, answers := Retrieve(q, servers), OperatorAnswers(q, servers);
      && (!Skippable(answers[0]) ==> r == Run(answers[0], 1, 0, 0))
      && (Skippable(answers[0]) && !Skippable(answers[1]) ==> r == Run(answers[1], 2, 0, 0))
      && (Skippable(answers[0]) && Skippable(answers[1]) ==>
            var d := DefaultRetrieve(q, servers.registry, false); r == Run(d.answer, 2, d.requests, d.sleeps))
      && r.answer != Nothing && r.answer != Raised(OperatorNotSupported)
  {
    var answers := OperatorAnswers(q, servers);
    FallbackMeaning(answers, DefaultRetrieve(q, servers.registry, false));
    DefaultNeedsIdentifiers(q, servers.registry, false);
  }

  /**
   * A query carrying only the three identifiers skips Taxcom for want of a total sum, so
   * a Platforma OFD page without the download icon sends the retrieval to the registry.
   */
  lemma NoTotalSumFallsBack(q: Query, servers: Servers, page: OldPlatformaPage)
    requires HasIdentifiers(q) && q.totalSum.None? && !page.hasDownloadIcon
    requires servers.platforma(PlatformaQuery(q.fiscalDriveNumber.value, q.fiscalSign.value)) == Some(Response(OK, page))
    ensures var d := DefaultRetrieve(q, servers.registry, false);
      Retrieve(q, servers) == Run(d.answer, 2, d.requests, d.sleeps)
  {
    RetrieveOrder(q, servers);
  }
}
