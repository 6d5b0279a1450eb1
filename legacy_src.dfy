/**
 * The first generation of the retrievers: Platforma OFD with labelled fields and a
 * stride of five item texts, Taxcom with a single layout, the registry retriever copying
 * each item's barcode, and the same operator chain and fallback as the next generation.
 */
module LegacySrc {
  import opened Base
  import opened DateTimes
  import opened Retrievers
  import opened StrideRows
  import opened NalogRu
  import opened Legacy
  import Taxcom

  // ---------------------------------------------------------------- Platforma OFD

  /**
   * What the parser's queries find on a Platforma OFD page of that time: the
   * `glyphicon-download-alt` icon, for every label the right-hand paragraph text of its
   * row (`plainTexts`) and that paragraph's bold child text (`boldTexts`), and the item
   * texts of the five rows after the "наименование товара (реквизиты)" header.
   */
  datatype FirstPlatformaPage = FirstPlatformaPage(
    hasDownloadIcon: bool,
    plainTexts: map<string, string>,
    boldTexts: map<string, string>,
    strings: seq<string>)

  const DriveLabel: string := "заводской номер фискального накопителя"
  const DocumentLabel: string := "порядковый номер фискального документа"
  const SignLabel: string := "фискальный признак документа"
  const SellerLabel: string := "наименование пользователя"
  const TaxIdLabel: string := "ИНН пользователя"
  const CreatedLabel: string := "дата, время"

  /** `_get_second_column_text(tree, caption, is_bold)`: the bold child's text or the paragraph's own. */
  function SecondColumnText(page: FirstPlatformaPage, caption: string, isBold: bool): (r: Option<string>)
    ensures var texts := if isBold then page.boldTexts else page.plainTexts;
      && (r.Some? <==> caption in texts)
      && (r.Some? ==> r.value == texts[caption])
  {
    var texts := if isBold then page.boldTexts else page.plainTexts;
    if caption in texts then Some(texts[caption]) else None
  }

  /** `_get_created`: the bold "дата, время" text read with `%d.%m.%Y %H:%M`, seven hours back. */
  function PlatformaCreated(page: FirstPlatformaPage): Option<DateTime>
  {
    match SecondColumnText(page, CreatedLabel, true)
    case None => None
    case Some(t) => Taxcom.ReadCreated(t)
  }

  /** The row of five texts at `i`: name, barcode, price, quantity, total, all as text. */
  function PlatformaRow(strings: seq<string>, i: nat): (r: Option<LegacyItem>)
    ensures r.Some? <==> i + 4 < |strings|
  {
    if i + 4 >= |strings| then None
    else Some(LegacyItem(JStr(strings[i]), Some(JStr(strings[i + 1])), Text(strings[i + 2]), Text(strings[i + 3]),
      Text(strings[i + 4])))
  }

  /** `_get_items`: rows at `range(0, len, 5)`. */
  function PlatformaItems(strings: seq<string>): Option<seq<LegacyItem>>
  {
    RowsFrom(strings, 0, |strings|, 5, PlatformaRow)
  }

  method GetPlatformaItems(strings: seq<string>) returns (items: Option<seq<LegacyItem>>)
    ensures items == PlatformaItems(strings)
  {
    items := CollectRows(strings, |strings|, 5, PlatformaRow);
  }

  /**
   * Item `i / 5` holds the texts at `i` to `i + 4` in the order name, barcode, price,
   * quantity, total; the items fail exactly when the last start lacks one of its five.
   */
  lemma PlatformaItemsAtStarts(strings: seq<string>)
    ensures var r := PlatformaItems(strings);
      && (r.Some? <==> forall i :: 0 <= i < |strings| && i % 5 == 0 ==> i + 4 < |strings|)
      && (r.Some? ==>
            && |r.value| == RowCount(|strings|, 5)
            && forall i :: 0 <= i < |strings| && i % 5 == 0 ==>
                 && i / 5 < |r.value|
                 && r.value[i / 5] == LegacyItem(JStr(strings[i]), Some(JStr(strings[i + 1])), Text(strings[i + 2]),
                      Text(strings[i + 3]), Text(strings[i + 4])))
  {
    RowsAtStarts(strings, |strings|, 5, PlatformaRow);
  }

  /** Five items exactly for 21 to 25 item texts. */
  lemma FiveRows(len: nat)
    ensures RowCount(len, 5) == 5 <==> 21 <= len <= 25
  {
  }

  /** `_parse_html`: no download icon means no receipt; otherwise every field from its label. */
  function PlatformaParse(page: FirstPlatformaPage): (a: Answer)
    ensures a.Nothing? <==> !page.hasDownloadIcon
    ensures a.Got? ==>
      && DriveLabel in page.boldTexts && a.receipt.fiscalDriveNumber == JStr(page.boldTexts[DriveLabel])
      && DocumentLabel in page.boldTexts && a.receipt.fiscalDocumentNumber == JStr(page.boldTexts[DocumentLabel])
      && SignLabel in page.boldTexts && a.receipt.fiscalSign == JStr(page.boldTexts[SignLabel])
      && SellerLabel in page.plainTexts && a.receipt.sellerName == JStr(page.plainTexts[SellerLabel])
      && TaxIdLabel in page.boldTexts && a.receipt.sellerIndividualNumber == JStr(page.boldTexts[TaxIdLabel])
      && Some(a.receipt.created) == PlatformaCreated(page)
      && Some(a.receipt.items) == PlatformaItems(page.strings)
  {
    if !page.hasDownloadIcon then Nothing
    else
      AssemblePage(SecondColumnText(page, DriveLabel, true), SecondColumnText(page, DocumentLabel, true),
        SecondColumnText(page, SignLabel, true), SecondColumnText(page, SellerLabel, false),
        SecondColumnText(page, TaxIdLabel, true), PlatformaCreated(page), PlatformaItems(page.strings))
  }

  /** The values of the Platforma OFD request: drive number and fiscal sign as passed. */
  datatype PlatformaQuery = PlatformaQuery(fn: string, fp: string)

  function PlatformaRetrieve(q: Query, server: PlatformaQuery -> Option<Response<FirstPlatformaPage>>): (a: Answer)
    ensures a == Raised(NotEnoughParameters) <==> !(Given(q.fiscalDriveNumber) && Given(q.fiscalSign))
    ensures a != Raised(OperatorNotSupported)
    ensures Given(q.fiscalDriveNumber) && Given(q.fiscalSign) ==>
      a == Fetch(server(PlatformaQuery(q.fiscalDriveNumber.value, q.fiscalSign.value)), PlatformaParse)
  {
    if !(Given(q.fiscalDriveNumber) && Given(q.fiscalSign)) then Raised(NotEnoughParameters)
    else Fetch(server(PlatformaQuery(q.fiscalDriveNumber.value, q.fiscalSign.value)), PlatformaParse)
  }

  // ---------------------------------------------------------------- Taxcom

  /** `_get_items`: rows of the first layout read every 9 texts while the start is below `len - 6`. */
  function TaxcomItems(strings: seq<string>): Option<seq<LegacyItem>>
  {
    RowsFrom(strings, 0, |strings| - 6, 9, TaxcomTextRow)
  }

  method GetTaxcomItems(strings: seq<string>) returns (items: Option<seq<LegacyItem>>)
    ensures items == TaxcomItems(strings)
  {
    items := CollectRows(strings, |strings| - 6, 9, TaxcomTextRow);
  }

  /** The rows never fail: one per start in `range(0, len - 6, 9)`, item `i / 9` read at `i`. */
  lemma TaxcomItemsAtStarts(strings: seq<string>)
    ensures var r := TaxcomItems(strings);
      && r.Some? && |r.value| == RowCount(|strings| - 6, 9)
      && forall i :: 0 <= i < |strings| - 6 && i % 9 == 0 ==> i / 9 < |r.value| && r.value[i / 9] == TaxcomTextRow(strings, i).value
  {
    RowsAtStarts(strings, |strings| - 6, 9, TaxcomTextRow);
  }

  /** Seven items exactly for 61 to 69 item texts. */
  lemma SevenRows(len: nat)
    ensures RowCount(len - 6, 9) == 7 <==> 61 <= len <= 69
  {
  }

  /**
   * `_parse_html`: no receipt title means no receipt; otherwise the identifiers beside
   * their `td` captions, seller and tax id from the report spans and the "Приход" time,
   * all as the current parser's first layout reads them.
   */
  function TaxcomParse(page: Taxcom.TaxcomPage): (a: Answer)
    ensures a.Nothing? <==> !page.hasReceiptTitle
    ensures a.Got? ==>
      && Taxcom.DriveLabel in page.cellTexts && a.receipt.fiscalDriveNumber == JStr(Text.Strip(page.cellTexts[Taxcom.DriveLabel]))
      && Taxcom.DocumentLabel in page.cellTexts && a.receipt.fiscalDocumentNumber == JStr(Text.Strip(page.cellTexts[Taxcom.DocumentLabel]))
      && Taxcom.SignLabel in page.cellTexts && a.receipt.fiscalSign == JStr(Text.Strip(page.cellTexts[Taxcom.SignLabel]))
      && |page.reportSpans| >= 2
      && a.receipt.sellerName == JStr(Text.Strip(page.reportSpans[0]))
      && a.receipt.sellerIndividualNumber == JStr(Text.Strip(page.reportSpans[1]))
      && Some(a.receipt.created) == Taxcom.CreatedOf(Taxcom.V1, page)
      && Some(a.receipt.items) == TaxcomItems(page.strings)
  {
    if !page.hasReceiptTitle then Nothing
    else
      AssemblePage(Taxcom.SecondColumnText(Taxcom.V1, page, Taxcom.DriveLabel),
        Taxcom.SecondColumnText(Taxcom.V1, page, Taxcom.DocumentLabel),
        Taxcom.SecondColumnText(Taxcom.V1, page, Taxcom.SignLabel),
        Taxcom.ReportSpan(page, 1), Taxcom.ReportSpan(page, 2),
        Taxcom.CreatedOf(Taxcom.V1, page), TaxcomItems(page.strings))
  }

  /** The values of the Taxcom request: fiscal sign and total sum as passed. */
  datatype TaxcomQuery = TaxcomQuery(fp: string, s: string)

  function TaxcomRetrieve(q: Query, server: TaxcomQuery -> Option<Response<Taxcom.TaxcomPage>>): (a: Answer)
    ensures a == Raised(NotEnoughParameters) <==> !(Given(q.fiscalSign) && Given(q.totalSum))
    ensures a != Raised(OperatorNotSupported)
    ensures Given(q.fiscalSign) && Given(q.totalSum) ==>
      a == Fetch(server(TaxcomQuery(q.fiscalSign.value, q.totalSum.value)), TaxcomParse)
  {
    if !(Given(q.fiscalSign) && Given(q.totalSum)) then Raised(NotEnoughParameters)
    else Fetch(server(TaxcomQuery(q.fiscalSign.value, q.totalSum.value)), TaxcomParse)
  }

  // ---------------------------------------------------------------- the chain

  datatype Servers = Servers(
    platforma: PlatformaQuery -> Option<Response<FirstPlatformaPage>>,
    taxcom: TaxcomQuery -> Option<Response<Taxcom.TaxcomPage>>,
    registry: seq<Response<JsonBody>>)

  /** The operator sites in the order `_OperatorReceiptRetriever` tries them. */
  function OperatorAnswers(q: Query, servers: Servers): (answers: seq<Answer>)
    ensures |answers| == 2
    ensures forall j :: 0 <= j < |answers| ==> answers[j] != Raised(OperatorNotSupported)
  {
    [PlatformaRetrieve(q, servers.platforma), TaxcomRetrieve(q, servers.taxcom)]
  }

  /** `get_receipt_retriever().get_receipt(**kwargs)`: the chain, falling back to the registry with barcodes. */
  function Retrieve(q: Query, servers: Servers): Run
  {
    Fallback(Chain(OperatorAnswers(q, servers)), DefaultRetrieve(q, servers.registry, true))
  }

  /**
   * The same order as the next generation: Platforma OFD, then Taxcom, then the registry
   * only when both were skipped; the answer is never `None` nor
   * `_OperatorNotSupportedException`, and a receipt from the registry keeps every item's
   * barcode, `None` where the registry gives none.
   */
  lemma RetrieveOrder(q: Query, servers: Servers)
    ensures var r, answers := Retrieve(q, servers), OperatorAnswers(q, servers);
      && (!Skippable(answers[0]) ==> r == Run(answers[0], 1, 0, 0))
      && (Skippable(answers[0]) && !Skippable(answers[1]) ==> r == Run(answers[1], 2, 0, 0))
      && (Skippable(answers[0]) && Skippable(answers[1]) ==>
            var d := DefaultRetrieve(q, servers.registry, true); r == Run(d.answer, 2, d.requests, d.sleeps))
      && r.answer != Nothing && r.answer != Raised(OperatorNotSupported)
  {
    var answers := OperatorAnswers(q, servers);
    FallbackMeaning(answers, DefaultRetrieve(q, servers.registry, true));
    DefaultNeedsIdentifiers(q, servers.registry, true);
  }
}
