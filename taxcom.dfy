/**
 * The Taxcom operator site: one request by fiscal sign and amount, then a page parsed in
 * one of two layouts. The page is given as the results of the parser's queries.
 */
module Taxcom {
  import opened Base
  import opened Text
  import opened Decimals
  import opened DateTimes
  import opened Lib
  import opened Retrievers
  import opened StrideRows

  /** The hours subtracted from the timestamp printed on the page. */
  const HourOffset: nat := 7

  /**
   * What the parser's queries find on a Taxcom page:
   * `//h1[@id="receipt_title"]` present, `//td[text()="№ смены"]` present, the stripped-later
   * text of the first span in the cell after a `td` with a given text (first layout) or
   * after the `td` holding a `span` with that text (second layout), the texts of
   * `(//div[@class="receipt_report"]//span)`, the text after the "Приход" label (first
   * layout), and the item texts `//table[@class="verticalBlock"]//span/text()`.
   */
  datatype TaxcomPage = TaxcomPage(
    hasReceiptTitle: bool,
    hasShiftCell: bool,
    cellTexts: map<string, string>,
    spanCellTexts: map<string, string>,
    reportSpans: seq<string>,
    incomeTime: Option<string>,
    strings: seq<string>)

  /** `ParserV1` and `ParserV2`. */
  datatype Layout = V1 | V2

  /** The layout probe, made afresh for every page: the first layout iff the page has a "№ смены" cell. */
  function LayoutOf(page: TaxcomPage): (l: Layout)
    ensures l == V1 <==> page.hasShiftCell
  {
    if page.hasShiftCell then V1 else V2
  }

  const DriveLabel: string := "Зав.№ ФН"
  const DocumentLabel: string := "№ ФД"
  const SignLabel: string := "ФПД"

  function Lookup(m: map<string, string>, key: string): (r: Option<string>)
    ensures r.Some? <==> key in m
    ensures r.Some? ==> r.value == m[key]
  {
    if key in m then Some(m[key]) else None
  }

  /** `get_second_column_text(caption)` of the layout: the text next to the caption, stripped. */
  function SecondColumnText(layout: Layout, page: TaxcomPage, caption: string): Option<string>
  {
    match Lookup(if layout == V1 then page.cellTexts else page.spanCellTexts, caption)
    case None => None
    case Some(t) => Some(Strip(t))
  }

  /** `(//div[@class="receipt_report"]//span)[n]`, 1-based, stripped; `None` where there is no such span. */
  function ReportSpan(page: TaxcomPage, n: nat): (r: Option<string>)
    requires n >= 1
    ensures r.Some? <==> n <= |page.reportSpans|
  {
    if n <= |page.reportSpans| then Some(Strip(page.reportSpans[n - 1])) else None
  }

  /** The printed timestamp read with `%d.%m.%Y %H:%M`, then moved `HourOffset` hours back. */
  function ReadCreated(text: string): Option<DateTime>
  {
    match Strptime(text, SiteFormat)
    case None => None
    case Some(dt) => MinusHours(dt, HourOffset)
  }

  /**
   * The page's timestamp is taken as exactly seven hours later than the receipt's: the
   * result is 25200 seconds earlier on the timeline, and there is none only where the
   * text is not a timestamp or the shift would cross the year 1.
   */
  lemma ReadCreatedShift(text: string)
    ensures ReadCreated(text).Some? ==>
      && Strptime(text, SiteFormat).Some?
      && Seconds(ReadCreated(text).value) == Seconds(Strptime(text, SiteFormat).value) - 7 * 3600
    ensures ReadCreated(text).None? <==>
      Strptime(text, SiteFormat).None? || Seconds(Strptime(text, SiteFormat).value) < 7 * 3600
  {
    if Strptime(text, SiteFormat).Some? {
      MinusHoursSeconds(Strptime(text, SiteFormat).value, HourOffset);
    }
  }

  /** A timestamp printed in the site format is read back to its minute, seven hours earlier. */
  lemma PrintedTimestamp(dt: DateTime)
    requires Valid(dt) && Seconds(dt) >= 7 * 3600 + 60
    ensures ReadCreated(Strftime(dt, SiteFormat)).Some?
    ensures Seconds(ReadCreated(Strftime(dt, SiteFormat)).value) == Seconds(dt) - dt.second - 7 * 3600
  {
    SiteFormatRoundTrip(dt);
    ReadCreatedShift(Strftime(dt, SiteFormat));
  }

  /** `get_created`: the first layout reads the cell after "Приход" as it is, the second the ninth report span stripped. */
  function CreatedOf(layout: Layout, page: TaxcomPage): Option<DateTime>
  {
    var text := if layout == V1 then page.incomeTime else ReportSpan(page, 9);
    match text
    case None => None
    case Some(t) => ReadCreated(t)
  }

  // ---------------------------------------------------------------- items

  /** `s` with a quantity suffix `<sep>000` dropped, otherwise with `sep` read as the decimal point. */
  function QuantityText(q: string, sep: char): string
  {
    if EndsWith(q, [sep] + "000") then DropLast(q, 4) else ReplaceChar(q, sep, '.')
  }

  /** The first layout: drop a `,000` suffix, otherwise turn `,` into `.`. */
  function V1Quantity(q: string): string
  {
    QuantityText(q, ',')
  }

  /** The second layout: drop a `.000` suffix, otherwise keep the text (replacing `.` by `.` changes nothing). */
  function V2Quantity(q: string): (r: string)
    ensures !EndsWith(q, ".000") ==> r == q
  {
    QuantityText(q, '.')
  }

  /** The first layout's row at `i`: name, quantity, price, total at offsets 0, 1, 2, 3. */
  function V1Row(strings: seq<string>, i: nat): Option<ParsedReceiptItem>
  {
    if i + 3 >= |strings| then None
    else
      match (ParseDecimal(V1Quantity(strings[i + 1])), ParseDecimal(strings[i + 2]), ParseDecimal(strings[i + 3]))
      case (Some(q), Some(p), Some(t)) => Some(ParsedReceiptItem(strings[i], Exact(q), Exact(p), Exact(t)))
      case _ => None
  }

  /** The second layout's row at `i`: name, quantity, price, total at offsets 0, 1, 2, 4. */
  function V2Row(strings: seq<string>, i: nat): Option<ParsedReceiptItem>
  {
    if i + 4 >= |strings| then None
    else
      match (ParseDecimal(V2Quantity(strings[i + 1])), ParseDecimal(strings[i + 2]), ParseDecimal(strings[i + 4]))
      case (Some(q), Some(p), Some(t)) => Some(ParsedReceiptItem(strings[i], Exact(q), Exact(p), Exact(t)))
      case _ => None
  }

  /** The first layout reads rows every 9 texts while the start is below `len - 8`; the second every 12 texts over the whole list. */
  function ItemsOf(layout: Layout, strings: seq<string>): Option<seq<ParsedReceiptItem>>
  {
    if layout == V1 then RowsFrom(strings, 0, |strings| - 8, 9, V1Row)
    else RowsFrom(strings, 0, |strings|, 12, V2Row)
  }

  /** `get_items`, the stride loop of the layout. */
  method GetItems(layout: Layout, strings: seq<string>) returns (items: Option<seq<ParsedReceiptItem>>)
    ensures items == ItemsOf(layout, strings)
  {
    if layout == V1 {
      items := CollectRows(strings, |strings| - 8, 9, V1Row);
    } else {
      items := CollectRows(strings, |strings|, 12, V2Row);
    }
  }

  /**
   * First layout: one item per start `i` in `range(0, len - 8, 9)`, item `i / 9` being
   * the row read at `i`; the items fail exactly when one of those rows does.
   */
  lemma V1Items(strings: seq<string>)
    ensures var r := ItemsOf(V1, strings);
      && (r.Some? <==> forall i :: 0 <= i < |strings| - 8 && i % 9 == 0 ==> V1Row(strings, i).Some?)
      && (r.Some? ==> |r.value| == RowCount(|strings| - 8, 9) && forall i :: 0 <= i < |strings| - 8 && i % 9 == 0 ==>
            i / 9 < |r.value| && r.value[i / 9] == V1Row(strings, i).value)
  {
    RowsAtStarts(strings, |strings| - 8, 9, V1Row);
  }

  /** Second layout: one item per start `i` in `range(0, len, 12)`, item `i / 12` being the row read at `i`. */
  lemma V2Items(strings: seq<string>)
    ensures var r := ItemsOf(V2, strings);
      && (r.Some? <==> forall i :: 0 <= i < |strings| && i % 12 == 0 ==> V2Row(strings, i).Some?)
      && (r.Some? ==> |r.value| == RowCount(|strings|, 12) && forall i :: 0 <= i < |strings| && i % 12 == 0 ==>
            i / 12 < |r.value| && r.value[i / 12] == V2Row(strings, i).value)
  {
    RowsAtStarts(strings, |strings|, 12, V2Row);
  }

  /** The first layout gives 13 rows exactly for 117 to 125 item texts. */
  lemma V1ThirteenRows(len: nat)
    ensures RowCount(len - 8, 9) == 13 <==> 117 <= len <= 125
  {
  }

  /** The second layout gives 14 rows exactly for 157 to 168 item texts. */
  lemma V2FourteenRows(len: nat)
    ensures RowCount(len, 12) == 14 <==> 157 <= len <= 168
  {
  }

  lemma DigitsNoSeparator(s: string, c: char)
    requires AllDigits(s) && !IsDigit(c)
    ensures c !in s
  {
    assert forall i :: 0 <= i < |s| ==> IsDigit(s[i]);
  }

  /** Appending `000` to a digit string multiplies its value by 1000. */
  lemma ThreeZeros(w: string)
    requires AllDigits(w)
    ensures AllDigits(w + "000") && DigitsValue(w + "000") == DigitsValue(w) * 1000
  {
    DigitsValueSnoc(w, '0');
    DigitsValueSnoc(w + "0", '0');
    DigitsValueSnoc(w + "00", '0');
    assert w + "0" + "0" == w + "00";
    assert w + "00" + "0" == w + "000";
  }

  /** A quantity `w<sep>000` loses its suffix and reads as the whole number `w`, which is the value `w.000`. */
  lemma WholeQuantity(w: string, sep: char)
    requires AllDigits(w) && |w| > 0 && !IsDigit(sep)
    ensures AllDigits(w + "000")
    ensures QuantityText(w + [sep] + "000", sep) == w
    ensures ParseDecimal(w) == Some(Dec(DigitsValue(w), 0))
    ensures SameValue(Dec(DigitsValue(w), 0), Dec(DigitsValue(w + "000"), -3))
  {
    SuffixDropped(w, sep);
    ParseWholeAs(w, Dec(DigitsValue(w), 0));
    WholeIsThousandths(w);
  }

  /** A whole number `w` and `w000` thousandths are the same value. */
  lemma WholeIsThousandths(w: string)
    requires AllDigits(w)
    ensures AllDigits(w + "000")
    ensures SameValue(Dec(DigitsValue(w), 0), Dec(DigitsValue(w + "000"), -3))
  {
    ThreeZeros(w);
    assert Pow10(3) == 1000;
  }

  /** The `<sep>000` suffix is what the quantity text drops. */
  lemma SuffixDropped(w: string, sep: char)
    requires AllDigits(w) && !IsDigit(sep)
    ensures QuantityText(w + [sep] + "000", sep) == w
  {
    var q := w + [sep] + "000";
    assert q[|q| - 4..] == [sep] + "000";
    assert DropLast(q, 4) == w;
  }

  /** Replacing the separator of `w<sep>f` by `.` gives `w.f` when the digits do not contain it. */
  lemma PointQuantity(w: string, f: string, sep: char)
    requires AllDigits(w) && AllDigits(f) && !IsDigit(sep)
    ensures ReplaceChar(w + [sep] + f, sep, '.') == w + "." + f
  {
    var q := w + [sep] + f;
    var t := ReplaceChar(q, sep, '.');
    assert forall i :: 0 <= i < |w| ==> q[i] == w[i] && IsDigit(w[i]);
    assert forall i :: 0 <= i < |f| ==> q[|w| + 1 + i] == f[i] && IsDigit(f[i]);
    assert t == w + "." + f;
  }

  /** A `w<sep>f` quantity has the `<sep>000` suffix only when `f` is `000`. */
  lemma SuffixMeansThousandths(w: string, f: string, sep: char)
    requires AllDigits(w) && AllDigits(f) && |f| > 0 && !IsDigit(sep)
    requires EndsWith(w + [sep] + f, [sep] + "000")
    ensures f == "000"
  {
    var q := w + [sep] + f;
    assert q[|q| - 4] == sep;
    if |f| != 3 {
      assert false;
    }
    assert f == q[|q| - 3..];
  }

  /**
   * A quantity written `w<sep>f` in digits always denotes the number `w.f`: dropping the
   * `<sep>000` suffix keeps the value, and otherwise the separator is read as the point.
   */
  lemma QuantityValue(w: string, f: string, sep: char)
    requires AllDigits(w) && AllDigits(f) && |w| > 0 && |f| > 0 && !IsDigit(sep)
    ensures AllDigits(w + f)
    ensures ParseDecimal(QuantityText(w + [sep] + f, sep)).Some?
    ensures SameValue(ParseDecimal(QuantityText(w + [sep] + f, sep)).value, Dec(DigitsValue(w + f), -|f|))
  {
    var q := w + [sep] + f;
    DigitsValueAppend(w, f);
    if EndsWith(q, [sep] + "000") {
      SuffixMeansThousandths(w, f, sep);
      WholeQuantity(w, sep);
    } else {
      PointQuantity(w, f, sep);
      ParsePointAs(w + "." + f, w, f, Dec(DigitsValue(w + f), -|f|));
    }
  }

  /** The first layout's quantities: "1,188" is 1.188 and "2,000" is 2. */
  lemma V1QuantityValue(w: string, f: string)
    requires AllDigits(w) && AllDigits(f) && |w| > 0 && |f| > 0
    ensures AllDigits(w + f)
    ensures ParseDecimal(V1Quantity(w + "," + f)).Some?
    ensures SameValue(ParseDecimal(V1Quantity(w + "," + f)).value, Dec(DigitsValue(w + f), -|f|))
  {
    QuantityValue(w, f, ',');
  }

  /** The second layout's quantities: "0.634" is 0.634 and "1.000" is 1. */
  lemma V2QuantityValue(w: string, f: string)
    requires AllDigits(w) && AllDigits(f) && |w| > 0 && |f| > 0
    ensures AllDigits(w + f)
    ensures ParseDecimal(V2Quantity(w + "." + f)).Some?
    ensures SameValue(ParseDecimal(V2Quantity(w + "." + f)).value, Dec(DigitsValue(w + f), -|f|))
  {
    QuantityValue(w, f, '.');
  }

  /**
   * A first-layout row whose price and total are printed Decimals and whose quantity is
   * `w,f` reads back as exactly those numbers, the quantity with the value `w.f`.
   */
  lemma V1RowReadsBack(strings: seq<string>, i: nat, w: string, f: string, price: Dec, total: Dec)
    requires i + 3 < |strings| && AllDigits(w) && AllDigits(f) && |w| > 0 && |f| > 0
    requires strings[i + 1] == w + "," + f && strings[i + 2] == ToString(price) && strings[i + 3] == ToString(total)
    ensures AllDigits(w + f)
    ensures V1Row(strings, i).Some?
    ensures var item := V1Row(strings, i).value;
      && item.name == strings[i] && item.price == Exact(price) && item.total == Exact(total)
      && item.quantity.Exact? && SameValue(item.quantity.value, Dec(DigitsValue(w + f), -|f|))
  {
    V1QuantityValue(w, f);
    ParseToString(price);
    ParseToString(total);
  }

  /**
   * A second-layout row whose price and total are printed Decimals and whose quantity is
   * `w.f` reads back as exactly those numbers; the text at offset 3 is not read.
   */
  lemma V2RowReadsBack(strings: seq<string>, i: nat, w: string, f: string, price: Dec, total: Dec)
    requires i + 4 < |strings| && AllDigits(w) && AllDigits(f) && |w| > 0 && |f| > 0
    requires strings[i + 1] == w + "." + f && strings[i + 2] == ToString(price) && strings[i + 4] == ToString(total)
    ensures AllDigits(w + f)
    ensures V2Row(strings, i).Some?
    ensures var item := V2Row(strings, i).value;
      && item.name == strings[i] && item.price == Exact(price) && item.total == Exact(total)
      && item.quantity.Exact? && SameValue(item.quantity.value, Dec(DigitsValue(w + f), -|f|))
  {
    V2QuantityValue(w, f);
    ParseToString(price);
    ParseToString(total);
  }

  // ---------------------------------------------------------------- the page and the request

  /** `Parser.parse`: no receipt title means no receipt; otherwise the layout's reading of every field. */
  function Parse(page: TaxcomPage): Outcome
  {
    if !page.hasReceiptTitle then NotFound
    else
      var layout := LayoutOf(page);
      Assemble(SecondColumnText(layout, page, DriveLabel), SecondColumnText(layout, page, DocumentLabel),
        SecondColumnText(layout, page, SignLabel), ReportSpan(page, 1), ReportSpan(page, 2),
        CreatedOf(layout, page), ItemsOf(layout, page.strings))
  }

  /**
   * A page without the title is not found; a page with it is a receipt or a malformed
   * document, whose identifiers are the stripped texts beside "Зав.№ ФН", "№ ФД" and
   * "ФПД" in the layout's cells, seller and tax id the first two report spans,
   * timestamp the layout's text read seven hours back, and items the layout's rows.
   */
  lemma ParseFields(page: TaxcomPage)
    ensures Parse(page).NotFound? <==> !page.hasReceiptTitle
    ensures Parse(page).Failed? ==> Parse(page).failure == MalformedDocument
    ensures Parse(page).Found? ==>
      var r := Parse(page).receipt;
      var labels := if page.hasShiftCell then page.cellTexts else page.spanCellTexts;
      && DriveLabel in labels && r.fiscalDriveNumber == Strip(labels[DriveLabel])
      && DocumentLabel in labels && r.fiscalDocumentNumber == Strip(labels[DocumentLabel])
      && SignLabel in labels && r.fiscalSign == Strip(labels[SignLabel])
      && |page.reportSpans| >= 2
      && r.sellerName == Strip(page.reportSpans[0]) && r.sellerIndividualNumber == Strip(page.reportSpans[1])
      && Some(r.created) == CreatedOf(LayoutOf(page), page)
      && Some(r.items) == ItemsOf(LayoutOf(page), page.strings)
  {
  }

  /** The values of the request URL: only the fiscal sign and the amount. */
  datatype TaxcomRequest = TaxcomRequest(fp: string, s: string)

  function RequestFor(p: ReceiptParams): TaxcomRequest
  {
    TaxcomRequest(NatToString(p.fiscalSign), ToString(p.amount))
  }

  /** The request carries the fiscal sign and the amount so that both read back exactly. */
  lemma RequestReadsBack(p: ReceiptParams)
    ensures AllDigits(RequestFor(p).fp) && DigitsValue(RequestFor(p).fp) == p.fiscalSign
    ensures ParseDecimal(RequestFor(p).s) == Some(p.amount)
  {
    NatToStringValue(p.fiscalSign);
    ParseToString(p.amount);
  }

  /** `get_receipt` against a server answering requests, or not answering at all: BadResponse unless 200, then the parse. */
  function Retrieve(p: ReceiptParams, server: TaxcomRequest -> Option<Response<TaxcomPage>>): (o: Outcome)
    ensures server(RequestFor(p)).None? ==> o == Failed(ConnectionError)
    ensures server(RequestFor(p)).Some? && server(RequestFor(p)).value.status != OK ==>
      o == Failed(BadResponse(server(RequestFor(p)).value.status))
    ensures server(RequestFor(p)).Some? && server(RequestFor(p)).value.status == OK ==>
      o == Parse(server(RequestFor(p)).value.body)
  {
    match server(RequestFor(p))
    case None => Failed(ConnectionError)
    case Some(response) =>
      if response.status != OK then Failed(BadResponse(response.status)) else Parse(response.body)
  }

}
