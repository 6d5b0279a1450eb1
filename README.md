# Receipt tracker: receipt retrieval and storage, modelled in Dafny

This project models the core of the receipt tracker, a Django site that keeps fiscal
receipts of Russian shops. A buyer scans the QR code printed on a receipt. The code
gives the receipt's identifiers:

- the fiscal drive number;
- the fiscal document number;
- the fiscal sign;
- the purchase time;
- the amount.

A background task fetches the full receipt. It asks the federal tax registry
(`proverkacheka.nalog.ru`) or the web page of a fiscal data operator (Taxcom,
Platforma OFD). It then stores the receipt with its seller, products, product aliases
and items. The reports rank products over the stored items.

The model covers the current generation and the two earlier ones still in the
repository:

- **Current** (`receipt_tracker/lib/...`, `receipt_tracker/tasks.py`):
  - the QR decoder;
  - the registry retriever, with its existence check and bounded polling;
  - the Taxcom parser, in both page layouts;
  - the Platforma OFD parser, with and without barcodes;
  - the combined retriever;
  - the Celery task that decodes its message, retrieves and stores;
  - the model properties and the reports.
- **Legacy** (`receipt_tracker/lib/receipt_retrievers.py`,
  `src/main/stuff/receipt_retrievers.py`):
  - the dictionary-returning retrievers;
  - the operator chain that falls back to the registry.
- **Early views** (`src/main/views.py`): the regex search for the identifiers in a QR
  text, and the unbounded registry polling.
- **Early command** (`src/main/management/commands/addreceipts.py`): the management
  command that works through the add-receipt tasks, one transaction each.

## How the model is built

- **Datatypes and functions.** Values are datatypes and parsers are functions. A
  failure is a value: `Outcome` for the current retrievers, `Answer` for the legacy
  ones, and `Option` where Python raises and the caller catches everything.
- **Methods and classes.** The source's loops are methods with loop invariants:
  - the item loops of the parsers;
  - the registry polling;
  - the first-success loop of the combined retriever;
  - the grouping loops of the reports.

  Each method is proved equal to the function that specifies it. The database
  that `_store_to_db` and the early command write, and the product that `copy_from`
  updates, are classes whose fields the methods reassign.
- **The network.** It is a parameter:
  - polling retrievers read a sequence of responses, one per request, where running
    out means a connection error;
  - single-request retrievers read a function from request to response;
  - a sleep is counted, not taken.

Where the source's tests and its code disagree, the model follows the code:

- `src/main/tests/views_test.py:8-11` expects `_get_receipt_params_from_qr` to return
  four strings, the last being the amount `"67.20"`. The code searches only three
  patterns (`fn=`, `i=`, `fp=`) and returns three. `EarlyViews.ParamsFromQr` returns a
  triple.
- `receipt_tracker/lib/retrievers/tests/test_taxcom.py:39-52` and `66-79` compare the
  items' quantity, price and total with strings such as `'3.19'`. The parser builds them
  as `Decimal` (`receipt_tracker/lib/retrievers/taxcom.py:58-62` and `85-89`), and in Python
  `Decimal('3.19') == '3.19'` is false. `Taxcom.V1RowReadsBack` and
  `Taxcom.V2RowReadsBack` state the amounts as decimals.

Two further modelling choices:

- `receipt_tracker/views.py` carries an older copy of the report helpers of
  `receipt_tracker/views/reports.py`. The two copies say the same thing, so there is
  one model. It cites `views/reports.py`.
- `src/main/models.py` declares no add-receipt task or product-alias model, though the
  early command uses both. `AddReceipts` gives them only the fields the command reads
  and writes. The three statuses are an enumeration.

## Model

| member | source | states |
|---|---|---|
| Base.MapAll | receipt_tracker/lib/retrievers/taxcom.py:36 | `list(generator)` succeeds exactly when every element converts; the list then has one converted value per input, in order |
| Base.CollectAll | receipt_tracker/lib/retrievers/taxcom.py:36 | the collecting loop gives the same list or failure as `MapAll` |
| Base.First | receipt_tracker/repositories.py:51-52 | the index found is the first element the predicate accepts; `None` means no element is accepted |
| Base.FirstAppend | receipt_tracker/repositories.py:51-52 | searching `xs + ys` finds the hit in `xs` if there is one, else the hit in `ys` shifted by the length of `xs` |
| Text.NatToString | receipt_tracker/lib/retrievers/nalog_ru.py:39-40 | an integer formatted into a URL is a non-empty digit string without a leading zero (except 0) |
| Text.NatToStringValue | receipt_tracker/lib/retrievers/nalog_ru.py:39-40 | the formatted digits read back as the integer |
| Text.PadZeroValue | receipt_tracker/lib/retrievers/nalog_ru.py:41 | a zero-padded `strftime` field reads back as its value when the value fits the width |
| Text.PadZero | receipt_tracker/lib/retrievers/nalog_ru.py:41 | a zero-padded `strftime` field has exactly its width, all digits |
| Text.DigitsValueAppend | receipt_tracker/lib/retrievers/taxcom.py:60 | the value of a concatenation of digit strings is the first value shifted by the second's length plus the second |
| Text.LeadingZerosValue | receipt_tracker/lib/retrievers/nalog_ru.py:77 | leading zeros do not change the value of a digit string |
| Text.StripLeft | receipt_tracker/lib/retrievers/taxcom.py:46 | `lstrip` removes exactly a maximal prefix of whitespace |
| Text.StripRight | receipt_tracker/lib/retrievers/taxcom.py:46 | `rstrip` removes exactly a maximal suffix of whitespace |
| Text.Strip | receipt_tracker/lib/retrievers/taxcom.py:46 | `strip` leaves no whitespace at either end and never lengthens the text |
| Text.StripClean | receipt_tracker/lib/retrievers/taxcom.py:46 | a text without whitespace at its ends is its own `strip` |
| Text.StripIdempotent | receipt_tracker/lib/retrievers/taxcom.py:46 | stripping twice is stripping once |
| Text.IndexOf | receipt_tracker/lib/qr_code.py:14 | the position found holds the character and none before it does |
| Text.SplitOnce | receipt_tracker/lib/qr_code.py:14 | `split('=', 1)` gives one piece (the whole text) when `=` is absent, else the text before the first `=` and the rest |
| Text.SplitOnceAt | receipt_tracker/lib/qr_code.py:14 | splitting `a + "=" + b` with no `=` in `a` gives `[a, b]` |
| Text.JoinSplitAll | receipt_tracker/lib/qr_code.py:14 | joining the pieces of `split('&')` with `&` gives back the text |
| Text.SplitAll | receipt_tracker/lib/qr_code.py:14 | `split('&')` always gives at least one piece |
| Text.SplitAllPiecesClean | receipt_tracker/lib/qr_code.py:14 | no piece of `split('&')` contains `&` |
| Text.SplitAllWithout | receipt_tracker/lib/qr_code.py:14 | a text without the separator splits into itself alone |
| Text.SplitAllAppend | receipt_tracker/lib/qr_code.py:14 | splitting `a + "&" + b` is splitting `a` followed by splitting `b` |
| Text.SplitAllJoin | receipt_tracker/lib/qr_code.py:14 | splitting the `&`-join of pieces free of `&` gives the pieces back |
| Text.Find | receipt_tracker/lib/retrievers/platforma_ofd.py:59 | the position found is the first occurrence of the separator; `None` means it never occurs |
| Text.Split | receipt_tracker/lib/retrievers/platforma_ofd.py:59 | `split(' х ')` always gives at least one piece |
| Text.JoinSplit | receipt_tracker/lib/retrievers/platforma_ofd.py:59 | joining the pieces of `split(sep)` with `sep` gives back the text |
| Text.SplitWithout | receipt_tracker/lib/retrievers/platforma_ofd.py:59 | a text without the separator's first character splits into itself alone |
| Text.SplitAround | receipt_tracker/lib/retrievers/platforma_ofd.py:72 | `quantity + " х " + price` with neither side holding the separator unpacks into exactly those two |
| Text.DropLast | receipt_tracker/lib/retrievers/taxcom.py:60 | `s[:-k]` is the prefix `k` shorter, or empty when `s` is shorter than `k` or `k` is 0 |
| Text.DropFirst | receipt_tracker/lib/retrievers/platforma_ofd.py:38 | `s[k:]` is the suffix `k` shorter, or empty when `s` is shorter than `k` |
| Text.ReplaceChar | receipt_tracker/lib/retrievers/taxcom.py:60 | `replace(',', '.')` keeps the length and changes exactly the commas |
| Decimals.ParseExponentText | receipt_tracker/tasks.py:25 | the exponent `str(Decimal)` prints reads back as itself |
| Decimals.ParseWithoutExponent | receipt_tracker/lib/qr_code.py:20 | a numeral without `E` parses as a plain mantissa |
| Decimals.ParseWithExponent | receipt_tracker/lib/qr_code.py:20 | a numeral `m E x` parses as mantissa `m` scaled by exponent `x`, and fails when `x` is no exponent |
| Decimals.ParseMantissaWhole | receipt_tracker/lib/qr_code.py:20 | a digit string is an integral decimal of that value |
| Decimals.ParseMantissaPoint | receipt_tracker/lib/qr_code.py:20 | `w.f` has coefficient `wf` and exponent minus the length of `f` |
| Decimals.ParsePointText | receipt_tracker/lib/qr_code.py:20 | `Decimal("w.f")` keeps the trailing zeros: coefficient `wf`, exponent minus the length of `f` (so "67.20" is 6720e-2) |
| Decimals.ParseWholeAs | receipt_tracker/lib/retrievers/taxcom.py:60 | `Decimal` of a digit string is that integer with exponent 0 |
| Decimals.ParseSmallPlain | receipt_tracker/tasks.py:25-35 | small values that `str(Decimal)` prints as `0.000ddd` parse back to the same decimal |
| Decimals.ParseWholePlain | receipt_tracker/tasks.py:25-35 | integral values printed without a point parse back to the same decimal |
| Decimals.ParseMiddlePlain | receipt_tracker/tasks.py:25-35 | values printed with a point inside the digits parse back to the same decimal |
| Decimals.ParseScientificText | receipt_tracker/tasks.py:25-35 | a numeral in scientific notation parses to its coefficient and adjusted exponent |
| Decimals.ParseScientific | receipt_tracker/tasks.py:25-35 | the decimals that `str(Decimal)` prints in scientific notation parse back to the same decimal |
| Decimals.ParseToString | receipt_tracker/tasks.py:25-35 | `Decimal(str(d)) == d`, coefficient and exponent alike: the task message carries the amount exactly |
| Decimals.Reduce | receipt_tracker/lib/retrievers/nalog_ru.py:78 | dropping trailing zeros toward the ideal exponent keeps the value |
| Decimals.DivBy100 | receipt_tracker/lib/retrievers/nalog_ru.py:78 | `Decimal(n) / 100` has the value of the coefficient moved two places, at exponent no larger |
| Decimals.RoundHalfEven | receipt_tracker/lib/retrievers/nalog_ru.py:77-79 | the quotient is a nearest multiple, ties going to the even one |
| Decimals.Quantize | receipt_tracker/lib/retrievers/nalog_ru.py:77-79 | `quantize(Decimal('0.001'))` ends at exponent -3; a value already that precise keeps its value; otherwise it is rounded half to even |
| Decimals.RoundHalfEvenExact | receipt_tracker/lib/retrievers/nalog_ru.py:77-79 | an exact multiple rounds to itself |
| Decimals.QuantizeExact | receipt_tracker/lib/retrievers/nalog_ru.py:77-79 | a decimal equal in value to `u` hundredths (thousandths) quantizes to exactly that |
| Decimals.QuantizeIdempotent | receipt_tracker/lib/retrievers/nalog_ru.py:77-79 | quantizing twice is quantizing once |
| Decimals.MinorUnitsExact | receipt_tracker/lib/retrievers/nalog_ru.py:78-79 | `(Decimal(n) / 100).quantize(Decimal('0.01'))` is exactly `n` kopecks, no rounding |
| DateTimes.DaysInMonth | receipt_tracker/lib/retrievers/taxcom.py:53 | every month has 28 to 31 days |
| DateTimes.PrevDay | receipt_tracker/lib/retrievers/taxcom.py:53 | the day before is a valid date exactly one day earlier; it is missing only before year 1 |
| DateTimes.MinusHours | receipt_tracker/lib/retrievers/taxcom.py:53 | subtracting `timedelta(hours=h)` gives a valid datetime with the same minutes and seconds |
| DateTimes.MinusHoursSeconds | receipt_tracker/lib/retrievers/taxcom.py:53 | the result is exactly `3600 * h` seconds earlier, and it is missing exactly when that would fall before year 1 |
| DateTimes.Strptime | receipt_tracker/lib/qr_code.py:19 | `strptime` only ever yields valid datetimes |
| DateTimes.StrptimeStrftime | receipt_tracker/lib/qr_code.py:19 | parsing what `strftime` printed recovers every field the format names, the rest taking `strptime`'s defaults |
| DateTimes.QrFormatRoundTrip | receipt_tracker/lib/qr_code.py:19 | `%Y%m%dT%H%M%S` round-trips every valid datetime |
| DateTimes.ApiFormatRoundTrip | receipt_tracker/lib/retrievers/nalog_ru.py:74 | `%Y-%m-%dT%H:%M:%S` round-trips every valid datetime |
| DateTimes.SiteFormatNoSeconds | receipt_tracker/lib/retrievers/taxcom.py:53 | `%d.%m.%Y %H:%M` names no seconds |
| DateTimes.SiteFormatRoundTrip | receipt_tracker/lib/retrievers/taxcom.py:53 | `%d.%m.%Y %H:%M` round-trips a datetime up to its seconds, which come back 0 |
| DateTimes.IsoRoundTrip | receipt_tracker/tasks.py:24-34 | `fromisoformat(isoformat(dt)) == dt` for every valid datetime (without microseconds) |
| QrCode.ParseInt | receipt_tracker/lib/qr_code.py:16 | `int(value)` succeeds exactly on non-empty digit strings |
| QrCode.ParseIntText | receipt_tracker/lib/qr_code.py:16 | an integer's digits parse back to it |
| QrCode.SplitPairs | receipt_tracker/lib/qr_code.py:14 | one `split('=', 1)` per `&`-segment, in order |
| QrCode.SplitPairsAppend | receipt_tracker/lib/qr_code.py:14 | splitting segments distributes over concatenation |
| QrCode.GetFieldSkips | receipt_tracker/lib/qr_code.py:28-30 | `_get_field` steps over leading pairs with another key |
| QrCode.GetFieldAt | receipt_tracker/lib/qr_code.py:27-36 | where the loop stops decides `_get_field`: the mapped value, the "cannot parse" error, the unpacking error of a segment without `=`, or "no field" at the end |
| QrCode.GetFieldStop | receipt_tracker/lib/qr_code.py:27-36 | the loop always stops: at the end, at a segment without `=`, or at the first key equal to the name |
| QrCode.FindsUnique | receipt_tracker/lib/qr_code.py:28-30 | there is only one first matching key |
| QrCode.GetFieldValue | receipt_tracker/lib/qr_code.py:27-36 | `_get_field` returns `v` exactly when the first pair with the key is reached and its value maps to `v` |
| QrCode.GetFieldNoKey | receipt_tracker/lib/qr_code.py:36 | without the key anywhere there is no value |
| QrCode.GetFieldRefused | receipt_tracker/lib/qr_code.py:33-35 | a first value the mapper refuses raises, even when a later pair would parse |
| QrCode.GetFieldAppend | receipt_tracker/lib/qr_code.py:27-36 | what follows the stopping point is never read |
| QrCode.GetFieldSwap | receipt_tracker/lib/qr_code.py:27-36 | swapping two adjacent well-formed pairs with different keys does not change any field |
| QrCode.GetFieldFirstSegment | receipt_tracker/lib/qr_code.py:27-36 | a first segment `key=value` decides the key's field |
| QrCode.DecodeNeedsAll | receipt_tracker/lib/qr_code.py:15-21 | a decoded code found all five fields |
| QrCode.DecodeSpec | receipt_tracker/lib/qr_code.py:12-36 | `decode` gives `p` exactly when, for each of `fn`, `i`, `fp`, `t`, `s`, the first pair with that key is reached and its value parses to `p`'s field |
| QrCode.DecodeMissing | receipt_tracker/lib/qr_code.py:22-24 | a missing key makes `decode` give `None` |
| QrCode.DecodeRejected | receipt_tracker/lib/qr_code.py:22-24 | a first value that does not parse makes `decode` give `None` |
| QrCode.DecodePartsRejected | receipt_tracker/lib/qr_code.py:22-24 | the same, on the split pairs |
| QrCode.DecodeUnpacking | receipt_tracker/lib/qr_code.py:22-24 | a segment without `=` reached before a key makes `decode` give `None` |
| QrCode.DecodeEmpty | receipt_tracker/lib/qr_code.py:12-24 | the empty text decodes to `None` |
| QrCode.DecodeIgnoresTail | receipt_tracker/lib/qr_code.py:12-24 | text appended after all five fields have been settled is ignored |
| QrCode.DecodePartsAppend | receipt_tracker/lib/qr_code.py:12-24 | the same, on the split pairs |
| QrCode.DecodeSwap | receipt_tracker/lib/qr_code.py:12-24 | the order of two adjacent `key=value` segments with different keys does not matter |
| QrCode.SwappedClean | receipt_tracker/lib/qr_code.py:14 | swapping segments keeps them free of `&` |
| QrCode.SplitPairsSwap | receipt_tracker/lib/qr_code.py:14 | splitting commutes with swapping two segments |
| QrCode.DecodePartsSwap | receipt_tracker/lib/qr_code.py:12-24 | swapping two adjacent well-formed pairs with different keys does not change the decoded parameters |
| QrCode.GetFieldHit | receipt_tracker/lib/qr_code.py:31-32 | the first pair with the key yields its mapped value |
| QrCode.StepsOverNext | receipt_tracker/lib/qr_code.py:28-30 | a well-formed pair with another key is stepped over |
| QrCode.PrintedLayoutSteps | receipt_tracker/lib/tests/test_qr_code.py:8 | in the printed order `t, s, fn, i, fp, n` each key is the first of its name |
| QrCode.PrintedField | receipt_tracker/lib/tests/test_qr_code.py:8 | in the printed order each field takes its own value |
| QrCode.PrintedIndexes | receipt_tracker/lib/tests/test_qr_code.py:8 | the printed pairs sit at positions 0 to 5 |
| QrCode.DecodePrintedLayout | receipt_tracker/lib/tests/test_qr_code.py:7-13 | the printed pairs decode to the parameters their values parse to |
| QrCode.DecodePartsFound | receipt_tracker/lib/qr_code.py:15-21 | five found fields make the parameters |
| QrCode.DigitsAvoid | receipt_tracker/lib/qr_code.py:14 | digit strings hold no separator |
| QrCode.ToStringAvoidsAmpersand | receipt_tracker/lib/qr_code.py:14 | a printed decimal holds no `&` |
| QrCode.PartsCons | receipt_tracker/lib/qr_code.py:14 | a leading `key=value&` splits off as one pair |
| QrCode.PrintedParts | receipt_tracker/lib/qr_code.py:14 | the printed QR text splits into its six pairs |
| QrCode.DecodePrinted | receipt_tracker/lib/tests/test_qr_code.py:7-13 | `decode` of `t=..&s=..&fn=..&i=..&fp=..&n=1` gives the parameters the five values parse to |
| QrCode.DecodeEncode | receipt_tracker/lib/qr_code.py:12-24 | decoding the text printed from any parameters with a valid datetime gives them back |
| QrCode.ExampleAmount | receipt_tracker/lib/tests/test_qr_code.py:13 | `Decimal("67.20")` is 6720e-2, equal in value to `Decimal('67.2')` |
| Retrievers.Assemble | receipt_tracker/lib/retrievers/__init__.py:10-19 | a `ParsedReceipt` is built exactly when all seven fields were read, and it holds those seven values in their places; any failed lookup is the one malformed-document failure |
| Polling.PollBounded | receipt_tracker/lib/retrievers/nalog_ru.py:49-65 | the polling loop gives the same result, request count and sleep count as the recursive `_get_receipt` |
| Polling.PollShape | receipt_tracker/lib/retrievers/nalog_ru.py:49-65 | at most `MAX_TRIES` requests, one sleep fewer than requests, 202 before the last request, and the last response decides: a connection error when responses run out, its body on 200, an error otherwise |
| Polling.PollBound | receipt_tracker/lib/retrievers/nalog_ru.py:56-62 | never more than `MAX_TRIES` requests or `MAX_TRIES - 1` sleeps |
| Polling.PollSucceeds | receipt_tracker/lib/retrievers/nalog_ru.py:56-67 | `k` answers 202 and then a 200 within the limit give that body after `k + 1` requests and `k` sleeps |
| Polling.PollGivesUp | receipt_tracker/lib/retrievers/nalog_ru.py:57-58 | `MAX_TRIES` answers 202 raise "no result after `MAX_TRIES` tries" |
| Polling.PollRejects | receipt_tracker/lib/retrievers/nalog_ru.py:64-65 | a status other than 200 and 202 raises `BadResponse` with that status |
| Polling.TwoTriesTwoAccepted | receipt_tracker/lib/retrievers/nalog_ru.py:57-58 | with two tries, two 202 answers give up after one sleep |
| Polling.PollUnbounded | src/main/views.py:127-143 | the unbounded polling loop gives the result of the unbounded recursion |
| Polling.PollForeverIsUnlimited | src/main/views.py:127-143 | unbounded polling is bounded polling with more tries than responses: it never gives up on its own |
| NalogRu.Str | receipt_tracker/lib/retrievers/nalog_ru.py:69-73 | `str()` of a JSON integer is its digit string |
| NalogRu.CheckRequestFor | receipt_tracker/lib/retrievers/nalog_ru.py:38-42 | the first request is the existence check |
| NalogRu.CheckRequestReadsBack | receipt_tracker/lib/retrievers/nalog_ru.py:38-42 | the check URL carries the document number, drive number and sign as their digits, the timestamp in `%Y-%m-%dT%H:%M:%S`, and `amount * 100` |
| NalogRu.DetailRequestFor | receipt_tracker/lib/retrievers/nalog_ru.py:51-54 | the detail URL carries the drive number, document number and sign as their digits |
| NalogRu.ConvertItemFields | receipt_tracker/lib/retrievers/nalog_ru.py:75-80 | an item converts exactly when its quantity's `str()` is a decimal; name via `str()`, price and total the kopecks over 100, quantity quantized to thousandths and equal in value when already that precise |
| NalogRu.ConvertItems | receipt_tracker/lib/retrievers/nalog_ru.py:75-80 | the item list converts exactly when every item does, one to one in order |
| NalogRu.ConvertReceipt | receipt_tracker/lib/retrievers/nalog_ru.py:67-81 | a body converts exactly when `document.receipt` is present, `dateTime` parses and all items convert; the fields are copied through `str()` and the datetime parsed; anything else is a malformed document |
| NalogRu.Repeat | receipt_tracker/lib/retrievers/nalog_ru.py:62 | the retries repeat one and the same detail request |
| NalogRu.GetReceipt | receipt_tracker/lib/retrievers/nalog_ru.py:23-81 | the check followed by the polling loop gives the exchange `Retrieve` specifies |
| NalogRu.CheckComesFirst | receipt_tracker/lib/retrievers/nalog_ru.py:44-45 | the check request is sent first; an answer other than 204 raises `BadResponse` at once, with no detail request and no sleep |
| NalogRu.DetailRequestsBounded | receipt_tracker/lib/retrievers/nalog_ru.py:49-81 | after a 204 there are 1 to `MAX_TRIES` detail requests, one sleep fewer, and a receipt only from a 200 preceded only by 202s; the result is never a plain `None` |
| NalogRu.SucceedsAfterRetries | receipt_tracker/lib/retrievers/nalog_ru.py:56-81 | `k < MAX_TRIES` answers 202 then 200 give the converted body after `k` sleeps and `k + 2` requests |
| NalogRu.GivesUpAfterMaxTries | receipt_tracker/lib/retrievers/nalog_ru.py:56-58 | five 202 answers raise "no result after 5 tries" after four sleeps |
| NalogRu.RejectsOtherStatus | receipt_tracker/lib/retrievers/nalog_ru.py:64-65 | another status after `k` 202s raises `BadResponse` with it |
| Taxcom.LayoutOf | receipt_tracker/lib/retrievers/taxcom.py:39-40 | the first layout is chosen exactly when the page has the shift-number cell |
| Taxcom.Lookup | receipt_tracker/lib/retrievers/taxcom.py:65-66 | a label's text is found exactly when the label is on the page |
| Taxcom.ReportSpan | receipt_tracker/lib/retrievers/taxcom.py:45-49 | the `n`th report span exists exactly when the page has that many |
| Taxcom.ReadCreatedShift | receipt_tracker/lib/retrievers/taxcom.py:51-53 | the timestamp is the `%d.%m.%Y %H:%M` reading moved back seven hours; it fails exactly when the text does not parse or the shift would pass year 1 |
| Taxcom.PrintedTimestamp | receipt_tracker/lib/retrievers/taxcom.py:51-53 | a printed timestamp reads back seven hours earlier, seconds dropped |
| Taxcom.V2Quantity | receipt_tracker/lib/retrievers/taxcom.py:86 | a quantity not ending in `.000` is kept as it is |
| Taxcom.GetItems | receipt_tracker/lib/retrievers/taxcom.py:55-63 | the item loop gives the items `ItemsOf` reads for the page's layout |
| Taxcom.V1Items | receipt_tracker/lib/retrievers/taxcom.py:55-63 | the first layout reads one item at every ninth string below `len - 8`, and fails exactly when one of them does |
| Taxcom.V2Items | receipt_tracker/lib/retrievers/taxcom.py:81-89 | the second layout reads one item at every twelfth string, and fails exactly when one of them does |
| Taxcom.V1ThirteenRows | receipt_tracker/lib/retrievers/taxcom.py:57 | `range(0, len - 8, 9)` has 13 starts exactly for 117 to 125 strings |
| Taxcom.V2FourteenRows | receipt_tracker/lib/retrievers/taxcom.py:83 | `range(0, len, 12)` has 14 starts exactly for 157 to 168 strings |
| Taxcom.WholeQuantity | receipt_tracker/lib/retrievers/taxcom.py:60 | `"w,000"` becomes `"w"`, which parses to the same value as `w.000` |
| Taxcom.SuffixDropped | receipt_tracker/lib/retrievers/taxcom.py:60 | cutting the last four characters of `w,000` leaves `w` |
| Taxcom.PointQuantity | receipt_tracker/lib/retrievers/taxcom.py:60 | replacing the separator by a point gives `w.f` |
| Taxcom.SuffixMeansThousandths | receipt_tracker/lib/retrievers/taxcom.py:60 | a quantity `w,f` that ends in `,000` has `f == "000"` |
| Taxcom.QuantityValue | receipt_tracker/lib/retrievers/taxcom.py:60-86 | either branch of the quantity expression parses to the value of `w.f` |
| Taxcom.V1QuantityValue | receipt_tracker/lib/retrievers/taxcom.py:60 | the first layout's `w,f` quantity always parses, to the value of `w.f` |
| Taxcom.V2QuantityValue | receipt_tracker/lib/retrievers/taxcom.py:86 | the second layout's `w.f` quantity always parses, to the value of `w.f` |
| Taxcom.V1RowReadsBack | receipt_tracker/lib/retrievers/taxcom.py:58-63 | a first-layout row reads the name, the quantity's value, and the price and total exactly as printed |
| Taxcom.V2RowReadsBack | receipt_tracker/lib/retrievers/taxcom.py:84-89 | a second-layout row reads the name, the quantity, the price at `i + 2` and the total at `i + 4` |
| Taxcom.ParseFields | receipt_tracker/lib/retrievers/taxcom.py:24-97 | no receipt title gives `None`; a found receipt holds the stripped label texts of its layout, the first two report spans, the shifted timestamp and the items; any failed lookup is a malformed document |
| Taxcom.RequestReadsBack | receipt_tracker/lib/retrievers/taxcom.py:16 | the URL carries the fiscal sign's digits and the amount as `str(Decimal)`, which reads back exactly |
| Taxcom.Retrieve | receipt_tracker/lib/retrievers/taxcom.py:15-19 | no response is a connection error, a status other than 200 a `BadResponse`, and a 200 the parsed page |
| PlatformaOfd.SecondColumnText | receipt_tracker/lib/retrievers/platforma_ofd.py:76-81 | a caption's right-column text is found exactly when the caption is on the page |
| PlatformaOfd.PrintedTimestamp | receipt_tracker/lib/retrievers/platforma_ofd.py:43-44 | a printed `Приход` timestamp reads back with seconds 0, without a shift |
| PlatformaOfd.SellerOf | receipt_tracker/lib/retrievers/platforma_ofd.py:37 | the seller is there exactly when the check top has a first block |
| PlatformaOfd.TaxIdOf | receipt_tracker/lib/retrievers/platforma_ofd.py:38 | the tax id is the third block without its first four characters, and exists exactly when there is a third block |
| PlatformaOfd.GetItems | receipt_tracker/lib/retrievers/platforma_ofd.py:49-62 | the item loop gives `BarcodeItems` |
| PlatformaOfd.BarcodeItemsAtStarts | receipt_tracker/lib/retrievers/platforma_ofd.py:56-62 | one item at every eighth string, failing exactly when one row does |
| PlatformaOfd.FiveRows | receipt_tracker/lib/retrievers/platforma_ofd.py:56 | `range(0, len, 8)` has 5 starts exactly for 33 to 40 strings |
| PlatformaOfd.BarcodeRowReadsBack | receipt_tracker/lib/retrievers/platforma_ofd.py:57-61 | a row `q х p` reads the stripped name, `q`, `p` and the eighth string, all as text |
| PlatformaOfd.BarcodeRowNeedsSeparator | receipt_tracker/lib/retrievers/platforma_ofd.py:60 | a row without ` х ` fails on `split(' х ')[1]` |
| PlatformaOfd.GetItemsWithNoBarcodes | receipt_tracker/lib/retrievers/platforma_ofd.py:64-74 | the section loop gives `SectionItems` |
| PlatformaOfd.SectionReadsBack | receipt_tracker/lib/retrievers/platforma_ofd.py:69-74 | a section reads the stripped first name, quantity and price from the first right text and the total from the last, all as decimals, failing exactly when one does not parse |
| PlatformaOfd.SectionNeedsOneSeparator | receipt_tracker/lib/retrievers/platforma_ofd.py:72 | a first right text that does not split into exactly two pieces fails the unpacking |
| PlatformaOfd.ParseFields | receipt_tracker/lib/retrievers/platforma_ofd.py:29-41 | no download icon gives `None`; a found receipt holds the right-column texts, the seller and tax id from the check top, the timestamp and the items of the kind the page shows, one per section when there are no barcodes |
| PlatformaOfd.RequestReadsBack | receipt_tracker/lib/retrievers/platforma_ofd.py:19 | the URL carries the drive number's and the sign's digits |
| PlatformaOfd.Retrieve | receipt_tracker/lib/retrievers/platforma_ofd.py:18-24 | no response is a connection error, a status other than 200 a `BadResponse`, a 200 the parsed page |
| StrideRows.RowCount | receipt_tracker/lib/retrievers/taxcom.py:57 | `len(range(0, stop, stride))`: the least `n` with `n * stride >= stop`, 0 for a stop at or below 0 |
| StrideRows.CollectRows | receipt_tracker/lib/retrievers/taxcom.py:57-63 | the generator loop over `range(0, stop, stride)` gives `RowsFrom` |
| StrideRows.RowsRead | receipt_tracker/lib/retrievers/taxcom.py:57-63 | a successful read has one row per start, each read at its start |
| StrideRows.RowsComplete | receipt_tracker/lib/retrievers/taxcom.py:57-63 | when every start reads, the list succeeds |
| StrideRows.Rows | receipt_tracker/lib/retrievers/taxcom.py:57-63 | the list succeeds exactly when every start reads, and then holds the rows in order |
| StrideRows.RowsAtStarts | receipt_tracker/lib/retrievers/taxcom.py:57-63 | the same, indexed by the start positions `i % stride == 0` below `stop` |
| Combined.FirstFound | receipt_tracker/lib/retrievers/combined.py:16-25 | the result is the first truthy answer together with the number of retrievers asked; none truthy gives `None` after all were asked |
| Combined.NoSources | receipt_tracker/lib/retrievers/combined.py:25 | no retrievers give `None` |
| Combined.PassesOver | receipt_tracker/lib/retrievers/combined.py:18-24 | a falsy answer or an exception moves on to the next retriever |
| Combined.FirstWins | receipt_tracker/lib/retrievers/combined.py:19-22 | a first retriever that finds the receipt ends the loop |
| Combined.LaterSourcesIgnored | receipt_tracker/lib/retrievers/combined.py:16-22 | retrievers after the one that found the receipt are never asked |
| Combined.ResultComesFromSource | receipt_tracker/lib/retrievers/combined.py:16-22 | a receipt returned is some retriever's answer |
| Combined.CombinedReceiptRetriever.constructor | receipt_tracker/lib/retrievers/combined.py:12-13 | the retriever keeps its list |
| Combined.CombinedReceiptRetriever.Answers | receipt_tracker/lib/retrievers/combined.py:16-18 | each retriever's answer, in list order |
| Combined.CombinedReceiptRetriever.GetReceipt | receipt_tracker/lib/retrievers/combined.py:15-25 | the loop returns the first truthy answer and stops asking there, as `FirstFound` says |
| Combined.Settles | receipt_tracker/lib/retrievers/combined.py:16-25 | the answer at the first truthy position decides |
| Sources.Answer | receipt_tracker/lib/retrievers/combined.py:15-25 | a combined retriever never raises: it finds the receipt or returns `None` |
| Sources.GetReceiptRetriever | receipt_tracker/lib/retrievers/__init__.py:42-44 | the configured retriever is the registry one |
| Sources.AvailableReceiptRetrievers | receipt_tracker/lib/retrievers/__init__.py:47-51 | the available list is the registry retriever alone |
| Sources.ConfiguredIsRegistry | receipt_tracker/lib/retrievers/__init__.py:42-51 | asking the configured retriever is asking the registry; a combined retriever over the available list finds what the registry finds and otherwise returns `None` |
| Tasks.FromDict | receipt_tracker/tasks.py:29-36 | the message decodes exactly when `created` is an ISO datetime and `amount` a decimal; the identifiers are copied |
| Tasks.DictRoundTrip | receipt_tracker/tasks.py:19-36 | `dict_to_receipt_params(receipt_params_to_dict(p)) == p` |
| Tasks.RetrieveReceipt | receipt_tracker/tasks.py:52-58 | a receipt exactly when the retriever answered one; `None` and any exception give `None` |
| Tasks.SellerByTaxId | receipt_tracker/repositories.py:10-13 | `get_or_create` returns the first seller with the tax id unchanged, or appends a new one; no other table changes |
| Tasks.AliasReused | receipt_tracker/tasks.py:67-74 | an existing alias of the seller and name is reused and only an item row is added |
| Tasks.AliasCreated | receipt_tracker/tasks.py:68-74 | with no alias, a new product and an alias to it are created before the item row |
| Tasks.StoreItemStep | receipt_tracker/tasks.py:67-75 | one stored item appends exactly one item row holding its amounts and an alias of the seller with its name, keeps every earlier row and keeps the references valid |
| Tasks.ItemsStored | receipt_tracker/tasks.py:66-75 | storing the items only appends to the products, aliases and items, one item row per parsed item, each linked through an alias of the seller with the item's name |
| Tasks.StoreShape | receipt_tracker/tasks.py:62-76 | `_store_to_db` appends one receipt row with the seller found by tax id, the buyer, the timestamp and the identifiers, then one item row per parsed item |
| Tasks.StoreItemsLinked | receipt_tracker/tasks.py:66-75 | storing items keeps every foreign key pointing at an existing row |
| Tasks.StoreLinked | receipt_tracker/tasks.py:62-76 | `_store_to_db` keeps every foreign key pointing at an existing row |
| Tasks.Database.GetOrCreateSeller | receipt_tracker/repositories.py:10-13 | the method updates the tables as `SellerFor` says |
| Tasks.Database.AddItem | receipt_tracker/tasks.py:67-74 | the method updates the tables as `StoreItem` says |
| Tasks.Database.StoreToDb | receipt_tracker/tasks.py:62-76 | the method updates the tables as `Store` says |
| Tasks.AddReceipt | receipt_tracker/tasks.py:39-49 | a bad message fails the task with nothing stored; a retrieved receipt is stored as `Store` says; otherwise the task is retried after an hour with nothing stored |
| Models.SellerNameFallback | receipt_tracker/models.py:21-25 | the user-friendly name wins when it is truthy; otherwise the original name |
| Models.ProductNameFallback | receipt_tracker/models.py:36-42 | the user-friendly name, else the first alias's name, else `"?"` |
| Models.ProductDetails | receipt_tracker/models.py:56-62 | details exist exactly when the product is checked: the food record first, the non-food mark only for a non-food product without one |
| Models.Set | receipt_tracker/models.py:76-84 | `setattr` changes exactly the one column |
| Models.CopyFills | receipt_tracker/models.py:76-84 | `copy_from` fills each of `user_friendly_name` and `barcode` from the other product only where it is `None`, and nothing else |
| Models.CopyChanges | receipt_tracker/models.py:76-84 | the product changes exactly when some column is `None` here and set there |
| Models.CopyIdempotent | receipt_tracker/models.py:76-84 | copying twice is copying once |
| Models.ProductInstance.constructor | receipt_tracker/models.py:28-31 | the instance holds the row |
| Models.ProductInstance.CopyFrom | receipt_tracker/models.py:76-84 | the row becomes `CopyColumns` of the old row, and the result says whether it changed |
| Models.PackageTotal | receipt_tracker/models.py:103-113 | a nutrient's package amount is its per-hundred-grams value scaled by the weight: the value itself for 100 g, zero for 0 g, never negative for a non-negative value |
| Models.TotalCaloriesNearest | receipt_tracker/models.py:99-101 | `total_calories` is the integer nearest the exact package calories, within one half, and even on a tie as Python's `round` is |
| Models.ItemFoodValue | receipt_tracker/models.py:207-211 | an item's food value is `None` for a non-food product, else the product's value per package |
| Models.Present | receipt_tracker/models.py:169-173 | the values that are not `None`; none of them exactly when all are `None` |
| Models.ItemValues | receipt_tracker/models.py:169-170 | one food value per item, in order |
| Models.PresentSum | receipt_tracker/models.py:169-173 | the sum of the present values is the total over the food items |
| Models.ReceiptFoodValueMeaning | receipt_tracker/models.py:169-173 | a receipt's food value is `None` exactly when no item is food, else the total over the food items |
| Models.NonCheckedCount | receipt_tracker/models.py:176-177 | the count is 0 exactly when every item's product is checked, and the item count exactly when none is |
| Reports.InsertPermutes | receipt_tracker/views/reports.py:118 | inserting adds exactly one element |
| Reports.InsertSorted | receipt_tracker/views/reports.py:118 | inserting into a descending list keeps it descending |
| Reports.SortDescMeaning | receipt_tracker/views/reports.py:118 | `sorted(..., reverse=True)` is a descending permutation |
| Reports.SameKeys | receipt_tracker/views/reports.py:115-117 | updating values keeps each product's position |
| Reports.AccumulateMeaning | receipt_tracker/views/reports.py:115-117 | adding to a product's entry keeps the products distinct, adds the product if new, and adds the value to it alone |
| Reports.GroupMeaning | receipt_tracker/views/reports.py:111-117 | the dictionary holds each contributing product once, with the sum of its items' contributions |
| Reports.EntryValue | receipt_tracker/views/reports.py:111-117 | each entry's value is its product's sum |
| Reports.PermutationDistinct | receipt_tracker/views/reports.py:118 | sorting keeps the products distinct |
| Reports.SingleOccurrence | receipt_tracker/views/reports.py:118 | an entry occurs at most once in a dictionary's items |
| Reports.TopMeaning | receipt_tracker/views/reports.py:111-118 | the top holds `min(TOP_SIZE, products)` distinct products in descending order, each with its sum, and no left-out product has a larger value than any kept one |
| Reports.LeftOutNotLarger | receipt_tracker/views/reports.py:118 | slicing a descending permutation keeps the largest values |
| Reports.FoodTopsSkipNonFood | receipt_tracker/views/reports.py:99-108 | a top whose contribution skips non-food items lists food products only |
| Reports.NutrientContributionFoodOnly | receipt_tracker/views/reports.py:133-142 | nutrient contributions skip non-food products |
| Reports.GetTop | receipt_tracker/views/reports.py:111-118 | the grouping loop and the sort give `Top` |
| Reports.TopByTotal | receipt_tracker/views/reports.py:111-118 | the top by total over all items |
| Reports.TopByWeight | receipt_tracker/views/reports.py:121-130 | the top by weight over food items |
| Reports.TopByProtein | receipt_tracker/views/reports.py:133-142 | the top by protein over food items, divided by 1000 |
| Reports.TopByFat | receipt_tracker/views/reports.py:145-154 | the top by fat over food items, divided by 1000 |
| Reports.TopByCarbohydrate | receipt_tracker/views/reports.py:157-166 | the top by carbohydrate over food items, divided by 1000 |
| Reports.TopByCalories | receipt_tracker/views/reports.py:99-108 | the top by calories over food items, divided by 1000 |
| Reports.AddItem | receipt_tracker/views/reports.py:191-209 | adding an item keeps a food row a food row |
| Reports.Summary | receipt_tracker/views/reports.py:249-258 | a row has food statistics exactly when its product is food |
| Reports.GetSummary | receipt_tracker/views/reports.py:249-258 | the loop gives `Summary` |
| Reports.SortSummaryMeaning | receipt_tracker/views/reports.py:225-227 | a known column key sorts the rows descending by that column (missing values as 0); any other key leaves the order |
| Reports.AbsentSumsToZero | receipt_tracker/views/reports.py:249-258 | a product without items sums to 0 |
| Reports.OtherItemKeepsSums | receipt_tracker/views/reports.py:249-258 | another product's item does not change a row |
| Reports.OwnItemAddsToSums | receipt_tracker/views/reports.py:191-209 | a product's own item adds its values to its row |
| Reports.SummaryMeaning | receipt_tracker/views/reports.py:182-258 | one row per product in first-seen order, holding the sums of that product's items: totals for every product, nutrients and calories for food only |
| Reports.FoodShouldBe | receipt_tracker/views/reports.py:59-66 | protein equals fat, carbohydrate is four times protein, and the three add up to the balanced receipts' total |
| Reports.UnbalancedIgnored | receipt_tracker/views/reports.py:60-61 | a receipt missing any of the three values does not count |
| Legacy.Fetch | receipt_tracker/lib/receipt_retrievers.py:67-74 | no response is a connection error, a status other than 200 raises, a 200 is parsed |
| Legacy.AssemblePage | receipt_tracker/lib/receipt_retrievers.py:76-88 | a dictionary is built exactly when all seven fields were read, the texts kept as strings |
| Legacy.TaxcomTextRow | receipt_tracker/lib/receipt_retrievers.py:144-152 | a first-layout row is read exactly when its four strings exist |
| Legacy.TaxcomTextRowKeepsText | receipt_tracker/lib/receipt_retrievers.py:144-152 | the early row keeps the texts the current parser turns into decimals |
| Legacy.TaxcomTextQuantities | receipt_tracker/lib/receipt_retrievers.py:147-152 | "1,188" becomes "1.188" and "2,000" becomes "2" |
| Legacy.DefaultGetReceipt | receipt_tracker/lib/receipt_retrievers.py:19-62 | the polling loop gives `DefaultRetrieve` |
| Legacy.DefaultNeedsIdentifiers | receipt_tracker/lib/receipt_retrievers.py:24-28 | `_NotEnoughParameters` is raised exactly when an identifier is missing or empty, before any request; otherwise 1 to 5 requests with one sleep fewer |
| Legacy.DefaultSucceedsAfterRetries | receipt_tracker/lib/receipt_retrievers.py:39-61 | `k < 5` answers 202 then 200 give the converted body |
| Legacy.DefaultGivesUp | receipt_tracker/lib/receipt_retrievers.py:39-41 | five 202s raise "no result after 5 tries" after four sleeps |
| Legacy.ConvertBodyFields | receipt_tracker/lib/receipt_retrievers.py:48-61 | the dictionary copies the identifiers, seller and items, moves `dateTime` back four hours, keeps price and sum in hundredths and the quantity through `str()` |
| Legacy.OperatorGetReceipt | receipt_tracker/lib/receipt_retrievers.py:216-225 | the operator loop gives `Chain` |
| Legacy.ChainMeaning | receipt_tracker/lib/receipt_retrievers.py:216-225 | the first answer that is neither `None` nor `_NotEnoughParameters` ends the loop; when all are, `_OperatorNotSupportedException` is raised |
| Legacy.Fallback | receipt_tracker/lib/receipt_retrievers.py:241-245 | the registry is asked only when the chain raised operator-not-supported |
| Legacy.FallbackMeaning | receipt_tracker/lib/receipt_retrievers.py:236-245 | the fallback gives the first decisive operator answer, else the registry's |
| LegacyLib.SecondColumnText | receipt_tracker/lib/receipt_retrievers.py:126-127 | a caption's right-column text exists exactly when the caption is on the page |
| LegacyLib.PlatformaRow | receipt_tracker/lib/receipt_retrievers.py:96-124 | a row is read exactly when its strings exist and the second splits on ` х `; price and quantity come from the two pieces, the total at the offset |
| LegacyLib.GetPlatformaItems | receipt_tracker/lib/receipt_retrievers.py:96-124 | the loop gives `PlatformaItems` |
| LegacyLib.PlatformaItemsAtStarts | receipt_tracker/lib/receipt_retrievers.py:96-124 | one row at every eighth string, the total five strings on with barcodes and three without |
| LegacyLib.PlatformaParse | receipt_tracker/lib/receipt_retrievers.py:76-88 | no download icon gives `None`; a dictionary holds the second and fourth check-top blocks, the captions' texts, the timestamp and the items |
| LegacyLib.PlatformaRetrieve | receipt_tracker/lib/receipt_retrievers.py:67-74 | `_NotEnoughParameters` exactly when the drive number or sign is missing, otherwise one request |
| LegacyLib.TaxcomV2TextRow | receipt_tracker/lib/receipt_retrievers.py:168-176 | a second-layout row is read exactly when its five strings exist |
| LegacyLib.GetTaxcomItems | receipt_tracker/lib/receipt_retrievers.py:144-176 | the loop gives `TaxcomItems` |
| LegacyLib.TaxcomItemsAtStarts | receipt_tracker/lib/receipt_retrievers.py:144-176 | the first layout always reads every ninth row; the second reads every twelfth and fails exactly when a row runs past the end |
| LegacyLib.TaxcomParse | receipt_tracker/lib/receipt_retrievers.py:190-206 | no receipt title gives `None`; a dictionary holds the layout's label texts, report spans, timestamp and items |
| LegacyLib.TaxcomRetrieve | receipt_tracker/lib/receipt_retrievers.py:181-188 | `_NotEnoughParameters` exactly when the fiscal sign or total sum is missing, otherwise one request |
| LegacyLib.OperatorAnswers | receipt_tracker/lib/receipt_retrievers.py:211-214 | two operators, Platforma OFD then Taxcom, neither raising operator-not-supported |
| LegacyLib.RetrieveOrder | receipt_tracker/lib/receipt_retrievers.py:209-249 | Platforma OFD decides if it can, then Taxcom, then the registry without barcodes |
| LegacyLib.NoTotalSumFallsBack | receipt_tracker/lib/receipt_retrievers.py:236-245 | a Platforma page without a receipt and no total sum fall back to the registry |
| LegacySrc.SecondColumnText | src/main/stuff/receipt_retrievers.py:106-107 | a label's bold or plain text exists exactly when the label is on the page |
| LegacySrc.PlatformaRow | src/main/stuff/receipt_retrievers.py:95-104 | a row is read exactly when its five strings exist |
| LegacySrc.GetPlatformaItems | src/main/stuff/receipt_retrievers.py:95-104 | the loop gives `PlatformaItems` |
| LegacySrc.PlatformaItemsAtStarts | src/main/stuff/receipt_retrievers.py:95-104 | one row at every fifth string: name, barcode, price, quantity, total |
| LegacySrc.FiveRows | src/main/stuff/receipt_retrievers.py:97 | `range(0, len, 5)` has 5 starts exactly for 21 to 25 strings |
| LegacySrc.PlatformaParse | src/main/stuff/receipt_retrievers.py:78-93 | no download icon gives `None`; a dictionary holds the labels' texts, the timestamp and the items |
| LegacySrc.PlatformaRetrieve | src/main/stuff/receipt_retrievers.py:69-76 | `_NotEnoughParameters` exactly when the drive number or sign is missing, otherwise one request |
| LegacySrc.GetTaxcomItems | src/main/stuff/receipt_retrievers.py:144-152 | the loop gives `TaxcomItems` |
| LegacySrc.TaxcomItemsAtStarts | src/main/stuff/receipt_retrievers.py:144-152 | one row at every ninth string below `len - 6` |
| LegacySrc.SevenRows | src/main/stuff/receipt_retrievers.py:146 | `range(0, len - 6, 9)` has 7 starts exactly for 61 to 69 strings |
| LegacySrc.TaxcomParse | src/main/stuff/receipt_retrievers.py:121-155 | no receipt title gives `None`; a dictionary holds the stripped cell texts, the report spans, the timestamp and the items |
| LegacySrc.TaxcomRetrieve | src/main/stuff/receipt_retrievers.py:112-119 | `_NotEnoughParameters` exactly when the fiscal sign or total sum is missing, otherwise one request |
| LegacySrc.OperatorAnswers | src/main/stuff/receipt_retrievers.py:160-163 | two operators, Platforma OFD then Taxcom |
| LegacySrc.RetrieveOrder | src/main/stuff/receipt_retrievers.py:158-198 | Platforma OFD decides if it can, then Taxcom, then the registry with barcodes |
| EarlyViews.DigitRun | src/main/views.py:115 | the greedy `\d+` takes a maximal run of digits |
| EarlyViews.FirstMatchFrom | src/main/views.py:115 | `re.search` finds the leftmost match |
| EarlyViews.Search | src/main/views.py:115 | a found group is a non-empty digit string |
| EarlyViews.FirstMatchDecides | src/main/views.py:115-117 | a value is found exactly when a match exists, and the leftmost match decides it |
| EarlyViews.DigitRunExact | src/main/views.py:115 | a digit run closed by a non-digit or the end is what `\d+` takes |
| EarlyViews.KeyThenDigits | src/main/views.py:115 | `key` followed by digits, with no earlier match, yields exactly those digits |
| EarlyViews.UnlimitedPolling | src/main/views.py:127-143 | any number of 202s are slept over one by one, and the first other answer decides: its body on 200, an error otherwise |
| AddReceipts.PendingFrom | src/main/management/commands/addreceipts.py:24-27 | the tasks handled are exactly the new or incomplete ones, in order |
| AddReceipts.HandleAll | src/main/management/commands/addreceipts.py:22-27 | handling tasks keeps the task list's length |
| AddReceipts.AliasOfKept | src/main/management/commands/addreceipts.py:69-76 | a resolved alias stays resolved as the tables grow |
| AddReceipts.RowSavedKept | src/main/management/commands/addreceipts.py:77-80 | a saved item row stays saved as the tables grow |
| AddReceipts.SellerForValid | src/main/management/commands/addreceipts.py:62 | `get_or_create` of the seller keeps the tables valid, changes only the sellers, and returns a seller with the tax id, named when new |
| AddReceipts.ProductForValid | src/main/management/commands/addreceipts.py:70 | `get_or_create` of the product keeps the tables valid and returns a product with the barcode |
| AddReceipts.AliasForValid | src/main/management/commands/addreceipts.py:71 | `get_or_create` of the alias keeps the tables valid and returns that alias |
| AddReceipts.NewProductAliasValid | src/main/management/commands/addreceipts.py:74-76 | a new product with its alias keeps the tables valid |
| AddReceipts.AliasResolved | src/main/management/commands/addreceipts.py:69-76 | the item's alias belongs to the seller and names the item; without a barcode an existing alias is reused with nothing created |
| AddReceipts.ItemSaved | src/main/management/commands/addreceipts.py:68-80 | one item adds one item row with its alias, price, quantity and total |
| AddReceipts.ItemsGrow | src/main/management/commands/addreceipts.py:68-80 | the items loop keeps the tables valid, only appends, and adds one row per item |
| AddReceipts.ItemsSaved | src/main/management/commands/addreceipts.py:68-80 | each item row holds its item |
| AddReceipts.HeaderSaved | src/main/management/commands/addreceipts.py:62-67 | the seller found by tax id and one new receipt row with the buyer, the timestamp and the identifiers |
| AddReceipts.ReceiptSaved | src/main/management/commands/addreceipts.py:60-81 | saving succeeds exactly when the timestamp parses and shifts; it adds one receipt row and one item row per item, keeping the tables valid |
| AddReceipts.HandleTaskMeaning | src/main/management/commands/addreceipts.py:29-40 | a task either leaves the database exactly as it was or marks only itself complete, the latter exactly when the registry answered a body whose timestamp parses, with the tables `SaveReceipt` gives |
| AddReceipts.HandleAllMeaning | src/main/management/commands/addreceipts.py:22-40 | after handling, a handled task is complete exactly when its registry yields a receipt whose timestamp reads and keeps its status otherwise, a failure does not stop the later tasks, unhandled tasks are untouched, and the tables stay valid |
| AddReceipts.HandleMeaning | src/main/management/commands/addreceipts.py:22-40 | every new or incomplete task ends complete exactly when its registry yields a receipt whose timestamp reads, and keeps its status otherwise; complete tasks are never touched; the tables stay valid |
| AddReceipts.Store.Load | src/main/management/commands/addreceipts.py:31 | the transaction's rollback restores the tables |
| AddReceipts.Store.SaveItemRow | src/main/management/commands/addreceipts.py:68-80 | the method updates the tables as `SaveItem` says |
| AddReceipts.Store.SaveItemRows | src/main/management/commands/addreceipts.py:68-80 | the loop updates the tables as `SaveItems` says |
| AddReceipts.Store.Save | src/main/management/commands/addreceipts.py:60-81 | success exactly when `SaveReceipt` succeeds, with its tables; on failure only the seller was created |
| AddReceipts.Store.HandleOne | src/main/management/commands/addreceipts.py:29-40 | incomplete, poll, save, complete; any failure rolls back, as `HandleTask` says |
| AddReceipts.Store.Handle | src/main/management/commands/addreceipts.py:22-27 | each pending task in order, as `HandleAll` says |

## Left out

- The network, HTTP and lxml are left out. A page is a datatype of the texts the XPath queries select. A response is a status and a body. URLs are kept only as the values they carry.
- Credentials, headers and settings are left out: they do not change any result.
- Logging is left out, and `time.sleep` is counted rather than taken.
- Floating point is left out. The legacy `item['price'] / 100` (a float) is kept as hundredths. The legacy `str()` of that float is not modelled.
- Nutrient values, calories and effectivity in the reports are `real`. Python rounds them as `Decimal` or `float`; the model does not.
- The effectivity top (`receipt_tracker/views/reports.py:169-179`) is left out. It divides by the calories and relies on float ordering.
- The decimal model has unlimited precision. It does not model the `Decimal` context: precision 28, traps and signals.
- `Decimals.ParseDecimal` accepts unsigned literals only, after stripping surrounding whitespace: digits, an optional point and an optional signed exponent. It does not accept a leading sign, underscores, `Infinity` or `NaN`.
- `QrCode.ParseInt` accepts ASCII digit strings only. It does not accept `int()`'s whitespace, signs, underscores or Unicode digits.
- `DateTimes.Strptime` needs every field at its full width and each literal character exactly. It does not accept `strptime`'s one-digit fields or a space-padded `%d` such as `" 5"`. It does not match literals case-insensitively, so `t` for the `T` of the API format is refused. It does not treat a space in the format as one or more whitespace characters, so the site format does not accept several spaces or a tab.
- `DateTimes.FromIsoFormat` reads only the full `YYYY-MM-DDTHH:MM:SS` form. It refuses the date-only form and the space-separated form that `datetime.fromisoformat` also reads.
- `EarlyViews.DigitRun` and the `\d` of `src/main/views.py:115` are modelled on ASCII digits. Python's `\d` also matches every other Unicode decimal digit.
- `DateTimes.IsoRoundTrip` leaves out microseconds and time zones. The source's `isoformat` prints microseconds when present.
- Time zones are fixed shifts: seven hours for Taxcom, four for the registry in the legacy code and the early command. Both are plain subtraction.
- A missing dictionary key, an empty XPath result, the first Taxcom layout's `Приход` time when its text is `None` (`incomeTime == None`) and a caption or label whose cell is missing (an absent map key) all become the one `MalformedDocument` failure. They are not told apart.
- An element whose `.text` is `None` cannot be represented in the positional lists: the Taxcom report spans, the Platforma OFD `check-top` blocks and the texts of its item sections are sequences of strings. An empty Taxcom span, which makes `.text.strip()` raise `AttributeError` (`receipt_tracker/lib/retrievers/taxcom.py:46`, `49`, `72`, `75`, `78`), can only be written as `""`, which the model reads as an empty seller or tax id. Platforma OFD returns `.text` unchecked (`receipt_tracker/lib/retrievers/platforma_ofd.py:37`, `77-81`), so the source stores a `None` seller name, drive number, document number or fiscal sign in the receipt without failing; the model has no `None` text there, and a right-column caption without text can only be written as an absent key, which fails.
- A JSON `null` barcode is the same as an absent one.
- The ORM, `transaction.atomic` and the database engine are left out. The tables are sequences, and a row's id is its position.
- `get_or_create` with more than one match is left out: it raises in Django, and the uniqueness invariants in `AddReceipts` exclude it.
- In `receipt_tracker/repositories.py`, only the get-or-create and alias lookups that `tasks.py` calls are modelled.
- Celery's scheduling is left out. `Tasks.AddReceipt` returns the retry countdown instead of raising `Retry`.
- Tasks.AddReceipt: always returns the one-hour retry when no receipt is found. Under Celery's default `max_retries` of 3, the fourth failure makes `task.retry` raise `MaxRetriesExceededError` instead of rescheduling, and the model does not count retries.
- The uniqueness of a receipt's drive number, document number and fiscal sign (`unique_together` at `receipt_tracker/models.py:137` and `src/main/models.py:30`) is not modelled. In the source, storing a receipt already present raises `IntegrityError`: the Celery task fails, and the early command rolls back and leaves the task pending for its next run. In the model, `Tasks.Store` and `AddReceipts.SaveReceipt` append a second row and the task completes, so the "exactly when" of `AddReceipts.HandleTaskMeaning`, `AddReceipts.HandleMeaning` and `Tasks.AddReceipt` holds only for receipts not yet stored.
- The recursion limit of CPython is left out. `src/main/views.py:136-138` and `src/main/management/commands/addreceipts.py:52-55` retry a 202 by recursion, so about 1000 successive 202s (`sys.getrecursionlimit()`) raise `RecursionError`; in the early command that error is caught at line 39 and the task rolled back. In the model, `Polling.PollForeverIsUnlimited` and `EarlyViews.UnlimitedPolling` poll for any number of 202s.
- The views other than the helpers above are left out: forms, templates, context and login. This includes `src/main/views.py` `_save_receipt` (lines 145-170) and `_get_receipt_params_from_photo`.
- `receipt_tracker/lib/similar.py` is not part of this model.
- The value report (`receipt_tracker/views/reports.py:17-56`) is not part of this model.
- `Product.last_buy` and `Product.last_price` are left out: they are ORM queries.
- Models.TotalCalories: `calories * weight / 100` is a float in the source and an exact fraction here. The two round alike while `calories * weight` stays below 2^40, where the float error is far below the 0.01 that separates a non-tie from a tie.
- EarlyViews.KeyThenDigits: states the regex result for texts of a general shape. The concrete QR text of the early view's test is not replayed character by character.
- Models.ItemFoodValue: the source's `Decimal` multiplication and division are done on `real`, without rounding.
- Reports.SortDescMeaning: states a descending permutation. It does not state that Python's sort is stable among equal values.
