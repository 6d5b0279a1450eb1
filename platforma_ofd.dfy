/**
 * The Platforma OFD operator site: one request by drive number and fiscal sign, then a
 * page whose items come either as a flat list of texts (receipts with barcodes) or as
 * one section per item (receipts without).
 */
module PlatformaOfd {
  import opened Base
  import opened Text
  import opened Decimals
  import opened DateTimes
  import opened Lib
  import opened Retrievers
  import opened StrideRows

  /** One `check-section` of a receipt without barcodes: its product-name texts and its right-column texts. */
  datatype Section = Section(names: seq<string>, rightTexts: seq<string>)

  /**
   * What the parser's queries find on a Platforma OFD page: the download icon, the
   * "штриховой код EAN13" header, the unstripped right-column text of the first row
   * holding a given caption, the texts of the `check-top` divs, the item texts of a
   * receipt with barcodes, and the item sections of one without.
   */
  datatype PlatformaPage = PlatformaPage(
    hasDownloadIcon: bool,
    hasBarcodeHeader: bool,
    rightColumn: map<string, string>,
    checkTop: seq<string>,
    strings: seq<string>,
    sections: seq<Section>)

  const DriveLabel: string := "N ФН"
  const DocumentLabel: string := "N ФД"
  const SignLabel: string := "ФП"
  const CreatedLabel: string := "Приход"

  /** The separator between quantity and price, with the Cyrillic letter `х`. */
  const Times: string := " х "

  /** `_get_second_column_text`: the text as it stands; `None` where no row has the caption. */
  function SecondColumnText(page: PlatformaPage, caption: string): (r: Option<string>)
    ensures r.Some? <==> caption in page.rightColumn
    ensures r.Some? ==> r.value == page.rightColumn[caption]
  {
    if caption in page.rightColumn then Some(page.rightColumn[caption]) else None
  }

  /** `_get_created`: the "Приход" text read with `%d.%m.%Y %H:%M`, with no time shift. */
  function CreatedOf(page: PlatformaPage): Option<DateTime>
  {
    match SecondColumnText(page, CreatedLabel)
    case None => None
    case Some(t) => Strptime(t, SiteFormat)
  }

  /** A timestamp printed in the site format is read back to its minute. */
  lemma PrintedTimestamp(page: PlatformaPage, dt: DateTime)
    requires Valid(dt) && CreatedLabel in page.rightColumn && page.rightColumn[CreatedLabel] == Strftime(dt, SiteFormat)
    ensures CreatedOf(page) == Some(dt.(second := 0))
  {
    SiteFormatRoundTrip(dt);
  }

  /** The seller: the first `check-top` text as it stands. */
  function SellerOf(page: PlatformaPage): (r: Option<string>)
    ensures r.Some? <==> |page.checkTop| >= 1
  {
    if |page.checkTop| >= 1 then Some(page.checkTop[0]) else None
  }

  /** The tax id: the third `check-top` text without its first four characters (the `ИНН ` caption). */
  function TaxIdOf(page: PlatformaPage): (r: Option<string>)
    ensures r.Some? <==> |page.checkTop| >= 3
    ensures r.Some? && |page.checkTop[2]| >= 4 ==> page.checkTop[2] == page.checkTop[2][..4] + r.value
    ensures r.Some? && |page.checkTop[2]| < 4 ==> r.value == ""
  {
    if |page.checkTop| >= 3 then Some(DropFirst(page.checkTop[2], 4)) else None
  }

  // ---------------------------------------------------------------- items with barcodes

  /**
   * The row of eight texts at `i`: the stripped name, quantity and price split out of the
   * second text, and the eighth text as the total, all left as text.
   */
  function BarcodeRow(strings: seq<string>, i: nat): Option<ParsedReceiptItem>
  {
    if i + 7 >= |strings| then None
    else
      var parts := Split(strings[i + 1], Times);
      if |parts| < 2 then None
      else Some(ParsedReceiptItem(Strip(strings[i]), Raw(parts[0]), Raw(parts[1]), Raw(strings[i + 7])))
  }

  /** `_get_items`: one row per start in `range(0, len, 8)`. */
  function BarcodeItems(strings: seq<string>): Option<seq<ParsedReceiptItem>>
  {
    RowsFrom(strings, 0, |strings|, 8, BarcodeRow)
  }

  method GetItems(strings: seq<string>) returns (items: Option<seq<ParsedReceiptItem>>)
    ensures items == BarcodeItems(strings)
  {
    items := CollectRows(strings, |strings|, 8, BarcodeRow);
  }

  /**
   * One item per start `i` in `range(0, len, 8)`, item `i / 8` being the row read at `i`;
   * the items fail exactly when one of those rows does.
   */
  lemma BarcodeItemsAtStarts(strings: seq<string>)
    ensures var r := BarcodeItems(strings);
      && (r.Some? <==> forall i :: 0 <= i < |strings| && i % 8 == 0 ==> BarcodeRow(strings, i).Some?)
      && (r.Some? ==> |r.value| == RowCount(|strings|, 8) && forall i :: 0 <= i < |strings| && i % 8 == 0 ==>
            i / 8 < |r.value| && r.value[i / 8] == BarcodeRow(strings, i).value)
  {
    RowsAtStarts(strings, |strings|, 8, BarcodeRow);
  }

  /** Five rows exactly for 33 to 40 item texts. */
  lemma FiveRows(len: nat)
    ensures RowCount(len, 8) == 5 <==> 33 <= len <= 40
  {
  }

  /**
   * A row whose second text is `q х p`, neither containing a space, yields quantity `q`,
   * price `p` and the eighth text as total, all as text.
   */
  lemma BarcodeRowReadsBack(strings: seq<string>, i: nat, q: string, p: string)
    requires i + 7 < |strings| && strings[i + 1] == q + Times + p && ' ' !in q && ' ' !in p
    ensures BarcodeRow(strings, i) == Some(ParsedReceiptItem(Strip(strings[i]), Raw(q), Raw(p), Raw(strings[i + 7])))
  {
    SplitAround(q, p, Times);
  }

  /** A row whose second text has no `х` separator ends the parse. */
  lemma BarcodeRowNeedsSeparator(strings: seq<string>, i: nat)
    requires i + 7 < |strings| && Find(strings[i + 1], Times).None?
    ensures BarcodeRow(strings, i).None?
  {
  }

  // ---------------------------------------------------------------- items without barcodes

  /**
   * One section's item: the first name stripped, quantity and price from the first
   * right-column text, which must split into exactly two, the total from the last, all
   * read as Decimals.
   */
  function SectionItem(s: Section): Option<ParsedReceiptItem>
  {
    if |s.names| == 0 || |s.rightTexts| == 0 then None
    else
      var parts := Split(s.rightTexts[0], Times);
      if |parts| != 2 then None
      else
        match (ParseDecimal(parts[0]), ParseDecimal(parts[1]), ParseDecimal(s.rightTexts[|s.rightTexts| - 1]))
        case (Some(q), Some(p), Some(t)) => Some(ParsedReceiptItem(Strip(s.names[0]), Exact(q), Exact(p), Exact(t)))
        case _ => None
  }

  /** The sections' items in order, or failure if one section fails. */
  function SectionItems(sections: seq<Section>): Option<seq<ParsedReceiptItem>>
  {
    MapAll(sections, SectionItem)
  }

  /** `_get_items_with_no_barcodes`: one item per section, in order. */
  method GetItemsWithNoBarcodes(sections: seq<Section>) returns (items: Option<seq<ParsedReceiptItem>>)
    ensures items == SectionItems(sections)
  {
    items := CollectAll(sections, SectionItem);
  }


  /**
   * A section whose first right-column text is `q х p`, neither containing a space, has
   * the item read from `q`, `p` and the last right-column text, when all three are numbers.
   */
  lemma SectionReadsBack(s: Section, q: string, p: string)
    requires |s.names| > 0 && |s.rightTexts| > 0 && s.rightTexts[0] == q + Times + p && ' ' !in q && ' ' !in p
    ensures var total := s.rightTexts[|s.rightTexts| - 1];
      && (SectionItem(s).Some? <==> ParseDecimal(q).Some? && ParseDecimal(p).Some? && ParseDecimal(total).Some?)
      && (SectionItem(s).Some? ==> SectionItem(s).value == ParsedReceiptItem(Strip(s.names[0]),
            Exact(ParseDecimal(q).value), Exact(ParseDecimal(p).value), Exact(ParseDecimal(total).value)))
  {
    SplitAround(q, p, Times);
  }

  /** A first right-column text with no separator, or with more than one, ends the parse. */
  lemma SectionNeedsOneSeparator(s: Section)
    requires |s.rightTexts| > 0 && |Split(s.rightTexts[0], Times)| != 2
    ensures SectionItem(s).None?
  {
  }

  // ---------------------------------------------------------------- the page and the request

  /** The item reading the page's header selects. */
  function ItemsOf(page: PlatformaPage): Option<seq<ParsedReceiptItem>>
  {
    if page.hasBarcodeHeader then BarcodeItems(page.strings) else SectionItems(page.sections)
  }

  /** `Parser.parse`: no download icon means no receipt; otherwise every field as read above. */
  function Parse(page: PlatformaPage): Outcome
  {
    if !page.hasDownloadIcon then NotFound
    else
      Assemble(SecondColumnText(page, DriveLabel), SecondColumnText(page, DocumentLabel),
        SecondColumnText(page, SignLabel), SellerOf(page), TaxIdOf(page), CreatedOf(page), ItemsOf(page))
  }

  /**
   * A page without the icon is not found; a page with it is a receipt or a malformed
   * document, whose identifiers are the unstripped texts beside "N ФН", "N ФД" and "ФП",
   * seller and tax id from the `check-top` texts, and items one per section unless the
   * barcode header is present.
   */
  lemma ParseFields(page: PlatformaPage)
    ensures Parse(page).NotFound? <==> !page.hasDownloadIcon
    ensures Parse(page).Failed? ==> Parse(page).failure == MalformedDocument
    ensures Parse(page).Found? ==>
      var r := Parse(page).receipt;
      && DriveLabel in page.rightColumn && r.fiscalDriveNumber == page.rightColumn[DriveLabel]
      && DocumentLabel in page.rightColumn && r.fiscalDocumentNumber == page.rightColumn[DocumentLabel]
      && SignLabel in page.rightColumn && r.fiscalSign == page.rightColumn[SignLabel]
      && |page.checkTop| >= 3 && r.sellerName == page.checkTop[0]
      && r.sellerIndividualNumber == DropFirst(page.checkTop[2], 4)
      && Some(r.created) == CreatedOf(page)
      && (!page.hasBarcodeHeader ==> |r.items| == |page.sections|)
      && Some(r.items) == ItemsOf(page)
  {
  }

  /** The values of the request URL: the drive number and the fiscal sign. */
  datatype PlatformaRequest = PlatformaRequest(fn: string, fp: string)

  function RequestFor(p: ReceiptParams): PlatformaRequest
  {
    PlatformaRequest(NatToString(p.fiscalDriveNumber), NatToString(p.fiscalSign))
  }

  /** The request carries the drive number and the fiscal sign so that both read back. */
  lemma RequestReadsBack(p: ReceiptParams)
    ensures AllDigits(RequestFor(p).fn) && DigitsValue(RequestFor(p).fn) == p.fiscalDriveNumber
    ensures AllDigits(RequestFor(p).fp) && DigitsValue(RequestFor(p).fp) == p.fiscalSign
  {
    NatToStringValue(p.fiscalDriveNumber);
    NatToStringValue(p.fiscalSign);
  }

  /** `get_receipt` against a server answering requests, or not answering at all: BadResponse unless 200, then the parse. */
  function Retrieve(p: ReceiptParams, server: PlatformaRequest -> Option<Response<PlatformaPage>>): (o: Outcome)
    ensures server(RequestFor(p)).None? ==> o == Failed(ConnectionError)
    ensures server(RequestFor(p)).Some? && server(RequestFor(p)).value.status != OK ==>
      o == Failed(BadResponse(server(RequestFor(p)).value.status))
    ensures server(RequestFor(p)).Some? && server(RequestFor(p)).value.status == OK ==>
      o == Parse(server(RequestFor(p)).value.body)
  {
    match server(RequestFor(p))
    case None => Failed(ConnectionError)
    case Some(response) =>
      if response.status != OK then Failed(BadResponse(response.status)) else Parse(response.body)
  }

}
