/**
 * The early `addreceipts` management command: every task still new or incomplete is
 * handled in turn, each inside one transaction that polls the registry without limit,
 * stores the receipt with its seller, products and aliases, and marks the task complete;
 * a task that fails anywhere leaves the database exactly as it was.
 */
module AddReceipts {
  import opened Base
  import opened DateTimes
  import opened Retrievers
  import opened Polling
  import opened NalogRu
  import opened Legacy

  /** `RETRY_DELAY`: seconds between two polls answered 202. */
  const RetryDelaySeconds: nat := 3

  /** The registry prints local time of the UTC+4 zone; stored timestamps are in UTC. */
  const ZoneHours: nat := 4

  /** `STATUS_NEW`, `STATUS_INCOMPLETE`, `STATUS_COMPLETE` of an add-receipt task. */
  datatype Status = New | Incomplete | Complete

  datatype Task = Task(status: Status, fiscalDriveNumber: string, fiscalDocumentNumber: string, fiscalSign: string, buyer: nat)

  datatype SellerRow = SellerRow(individualNumber: JsonValue, name: JsonValue)

  /** A product: its barcode, `None` for products created from an item without one. */
  datatype ProductRow = ProductRow(barcode: Option<JsonValue>)

  datatype AliasRow = AliasRow(seller: nat, product: nat, name: JsonValue)

  datatype ReceiptRow = ReceiptRow(
    seller: nat,
    buyer: nat,
    created: DateTime,
    fiscalDriveNumber: JsonValue,
    fiscalDocumentNumber: JsonValue,
    fiscalSign: JsonValue)

  /** An item row; price and total stay in kopecks, as the registry gives them. */
  datatype ItemRow = ItemRow(receipt: nat, productAlias: nat, price: nat, quantity: JsonValue, total: nat)

  /** The tables a saved receipt touches, a row's id being its position. */
  datatype Tables = Tables(
    sellers: seq<SellerRow>,
    products: seq<ProductRow>,
    aliases: seq<AliasRow>,
    receipts: seq<ReceiptRow>,
    items: seq<ItemRow>)

  /** The whole database: the task queue beside the receipt tables. */
  datatype Database = Database(tasks: seq<Task>, tables: Tables)

  // ---------------------------------------------------------------- get or create

  function HasTaxId(individualNumber: JsonValue): SellerRow -> bool
  {
    (s: SellerRow) => s.individualNumber == individualNumber
  }

  function HasBarcode(barcode: JsonValue): ProductRow -> bool
  {
    (p: ProductRow) => p.barcode == Some(barcode)
  }

  function IsRow(row: AliasRow): AliasRow -> bool
  {
    (a: AliasRow) => a == row
  }

  function NamedBy(seller: nat, name: JsonValue): AliasRow -> bool
  {
    (a: AliasRow) => a.seller == seller && a.name == name
  }

  /** `Seller.objects.get_or_create(individual_number=…, defaults={'name': …})`. */
  function SellerFor(t: Tables, individualNumber: JsonValue, name: JsonValue): (Tables, nat)
  {
    match First(t.sellers, HasTaxId(individualNumber))
    case Some(id) => (t, id)
    case None => (t.(sellers := t.sellers + [SellerRow(individualNumber, name)]), |t.sellers|)
  }

  /** `Product.objects.get_or_create(barcode=…)`. */
  function ProductFor(t: Tables, barcode: JsonValue): (Tables, nat)
  {
    match First(t.products, HasBarcode(barcode))
    case Some(id) => (t, id)
    case None => (t.(products := t.products + [ProductRow(Some(barcode))]), |t.products|)
  }

  /** `ProductAlias.objects.get_or_create(seller=…, product=…, name=…)`. */
  function AliasFor(t: Tables, row: AliasRow): (Tables, nat)
  {
    match First(t.aliases, IsRow(row))
    case Some(id) => (t, id)
    case None => (t.(aliases := t.aliases + [row]), |t.aliases|)
  }

  /** An item without a barcode and no alias of that name: a new product and its alias. */
  function NewProductAlias(t: Tables, seller: nat, name: JsonValue): (Tables, nat)
  {
    (t.(products := t.products + [ProductRow(None)],
        aliases := t.aliases + [AliasRow(seller, |t.products|, name)]), |t.aliases|)
  }

  /**
   * The alias an item is stored under: with a barcode, the product with that barcode and
   * its alias by this seller and name, both got or created; without, the first alias by
   * this seller and name, or a new product and a new alias.
   */
  function ResolveAlias(t: Tables, seller: nat, item: JsonItem): (Tables, nat)
  {
    match item.barcode
    case Some(barcode) =>
      var (t1, product) := ProductFor(t, barcode);
      AliasFor(t1, AliasRow(seller, product, item.name))
    case None =>
      match First(t.aliases, NamedBy(seller, item.name))
      case Some(id) => (t, id)
      case None => NewProductAlias(t, seller, item.name)
  }

  /** One turn of the item loop: the alias, then the item row. */
  function SaveItem(t: Tables, seller: nat, receipt: nat, item: JsonItem): Tables
  {
    var (t1, alias) := ResolveAlias(t, seller, item);
    t1.(items := t1.items + [ItemRow(receipt, alias, item.price, item.quantity, item.sum)])
  }

  function SaveItems(t: Tables, seller: nat, receipt: nat, items: seq<JsonItem>): Tables
  {
    if items == [] then t
    else SaveItem(SaveItems(t, seller, receipt, items[..|items| - 1]), seller, receipt, items[|items| - 1])
  }

  /** The stored timestamp: the printed local time read with `%Y-%m-%dT%H:%M:%S`, as UTC. */
  function CreatedOf(doc: JsonReceipt): Option<DateTime>
  {
    match Strptime(doc.dateTime, ApiFormat)
    case None => None
    case Some(dt) => MinusHours(dt, ZoneHours)
  }

  /** The seller's row and the new receipt row, before the items. */
  function SaveHeader(t: Tables, doc: JsonReceipt, buyer: nat, created: DateTime): (Tables, nat)
  {
    var (t1, seller) := SellerFor(t, doc.userInn, doc.user);
    (t1.(receipts := t1.receipts + [ReceiptRow(seller, buyer, created, doc.fiscalDriveNumber,
      doc.fiscalDocumentNumber, doc.fiscalSign)]), seller)
  }

  /**
   * `_save_receipt`: the seller, one receipt row, then the items; `None` where the
   * timestamp cannot be read, which raises and so abandons the transaction.
   */
  function SaveReceipt(t: Tables, doc: JsonReceipt, buyer: nat): Option<Tables>
  {
    match CreatedOf(doc)
    case None => None
    case Some(created) =>
      var (t2, seller) := SaveHeader(t, doc, buyer, created);
      Some(SaveItems(t2, seller, |t.receipts|, doc.items))
  }

  /**
   * `_handle_task` for task `k`, whose registry requests receive `network`. Inside the
   * transaction the task is first marked incomplete, which the final mark overwrites or
   * the rollback undoes; then the receipt is polled for and saved and the task marked
   * complete. Any exception rolls all of it back.
   */
  function HandleTask(db: Database, k: nat, network: seq<Response<JsonBody>>): Database
    requires k < |db.tasks|
  {
    var polled := PollForever(network, 0);
    if polled.fetch.FetchFailed? || polled.fetch.body.None? then db
    else
      match SaveReceipt(db.tables, polled.fetch.body.value, db.tasks[k].buyer)
      case None => db
      case Some(saved) => Database(db.tasks[k := db.tasks[k].(status := Complete)], saved)
  }

  /**
   * Whether a task whose registry requests receive `network` is saved: the polling ends
   * with a 200 carrying a receipt whose timestamp reads.
   */
  predicate Succeeds(network: seq<Response<JsonBody>>)
  {
    var polled := PollForever(network, 0);
    polled.fetch.Fetched? && polled.fetch.body.Some? && CreatedOf(polled.fetch.body.value).Some?
  }

  /** Whether `handle` picks a task up. */
  predicate Pending(task: Task)
  {
    task.status == New || task.status == Incomplete
  }

  /** The positions of the pending tasks among `tasks[from..]`, in order. */
  function PendingFrom(tasks: seq<Task>, from: nat): (ids: seq<nat>)
    requires from <= |tasks|
    ensures forall j :: 0 <= j < |ids| ==> from <= ids[j] < |tasks| && Pending(tasks[ids[j]])
    ensures forall j, l :: 0 <= j < l < |ids| ==> ids[j] < ids[l]
    ensures forall k :: from <= k < |tasks| && Pending(tasks[k]) ==> k in ids
    decreases |tasks| - from
  {
    if from == |tasks| then []
    else if Pending(tasks[from]) then [from] + PendingFrom(tasks, from + 1)
    else PendingFrom(tasks, from + 1)
  }

  /** The tasks handled one after another, task `id` receiving `networks(id)`. */
  function HandleAll(db: Database, ids: seq<nat>, networks: nat -> seq<Response<JsonBody>>): (r: Database)
    requires forall j :: 0 <= j < |ids| ==> ids[j] < |db.tasks|
    ensures |r.tasks| == |db.tasks|
  {
    if ids == [] then db
    else
      var front := HandleAll(db, ids[..|ids| - 1], networks);
      HandleTask(front, ids[|ids| - 1], networks(ids[|ids| - 1]))
  }

  // ---------------------------------------------------------------- what the command keeps

  predicate SellersUnique(s: seq<SellerRow>)
  {
    forall i, j :: 0 <= i < j < |s| ==> s[i].individualNumber != s[j].individualNumber
  }

  predicate ProductsUnique(p: seq<ProductRow>)
  {
    forall i, j :: 0 <= i < j < |p| && p[i].barcode.Some? ==> p[i].barcode != p[j].barcode
  }

  predicate AliasesUnique(a: seq<AliasRow>)
  {
    forall i, j :: 0 <= i < j < |a| ==> a[i] != a[j]
  }

  predicate AliasesLinked(a: seq<AliasRow>, sellers: nat, products: nat)
  {
    forall k :: 0 <= k < |a| ==> a[k].seller < sellers && a[k].product < products
  }

  predicate ReceiptsLinked(r: seq<ReceiptRow>, sellers: nat)
  {
    forall k :: 0 <= k < |r| ==> r[k].seller < sellers
  }

  predicate ItemsLinked(items: seq<ItemRow>, receipts: nat, aliases: nat)
  {
    forall k :: 0 <= k < |items| ==> items[k].receipt < receipts && items[k].productAlias < aliases
  }

  /**
   * Every reference points at an existing row; no two sellers share a tax id, no two
   * products share a barcode, no alias appears twice, so every `get_or_create` finds at
   * most one row and taking the first is taking it.
   */
  predicate Valid(t: Tables)
  {
    && SellersUnique(t.sellers) && ProductsUnique(t.products) && AliasesUnique(t.aliases)
    && AliasesLinked(t.aliases, |t.sellers|, |t.products|)
    && ReceiptsLinked(t.receipts, |t.sellers|)
    && ItemsLinked(t.items, |t.receipts|, |t.aliases|)
  }

  /**
   * Item row `id` of `t` stores `item` on `receipt`: its amounts and quantity, an alias
   * of `seller` with the item's name, and for an item with a barcode a product carrying it.
   */
  predicate RowSaved(t: Tables, id: nat, seller: nat, receipt: nat, item: JsonItem)
  {
    && id < |t.items|
    && var row := t.items[id];
    && row == ItemRow(receipt, row.productAlias, item.price, item.quantity, item.sum)
    && AliasOf(t, row.productAlias, seller, item)
  }

  /** Alias `alias` of `t` belongs to `seller`, has the item's name and, if any, its barcode. */
  predicate AliasOf(t: Tables, alias: nat, seller: nat, item: JsonItem)
  {
    && alias < |t.aliases|
    && t.aliases[alias].seller == seller && t.aliases[alias].name == item.name
    && t.aliases[alias].product < |t.products|
    && (item.barcode.Some? ==> t.products[t.aliases[alias].product].barcode == item.barcode)
  }

  /** Aliases already resolved stay resolved when products and aliases only grow. */
  lemma AliasOfKept(t: Tables, t': Tables, alias: nat, seller: nat, item: JsonItem)
    requires AliasOf(t, alias, seller, item) && t.products <= t'.products && t.aliases <= t'.aliases
    ensures AliasOf(t', alias, seller, item)
  {
    assert t'.aliases[alias] == t.aliases[alias];
    assert t'.products[t.aliases[alias].product] == t.products[t.aliases[alias].product];
  }

  /** Item rows already stored stay stored when products, aliases and items only grow. */
  lemma RowSavedKept(t: Tables, t': Tables, id: nat, seller: nat, receipt: nat, item: JsonItem)
    requires RowSaved(t, id, seller, receipt, item)
    requires t.products <= t'.products && t.aliases <= t'.aliases && t.items <= t'.items
    ensures RowSaved(t', id, seller, receipt, item)
  {
    assert t'.items[id] == t.items[id];
    AliasOfKept(t, t', t.items[id].productAlias, seller, item);
  }

  /** A seller is found by tax id or added; either way the tables stay valid. */
  lemma SellerForValid(t: Tables, individualNumber: JsonValue, name: JsonValue)
    requires Valid(t)
    ensures var (t', id) := SellerFor(t, individualNumber, name);
      && Valid(t') && t' == t.(sellers := t'.sellers) && t.sellers <= t'.sellers
      && id < |t'.sellers| && t'.sellers[id].individualNumber == individualNumber
      && (First(t.sellers, HasTaxId(individualNumber)).None? ==> t'.sellers[id].name == name)
  {
    if First(t.sellers, HasTaxId(individualNumber)).None? {
      assert forall j :: 0 <= j < |t.sellers| ==> !HasTaxId(individualNumber)(t.sellers[j]);
    }
  }

  /** A product is found by barcode or added; either way the tables stay valid. */
  lemma ProductForValid(t: Tables, barcode: JsonValue)
    requires Valid(t)
    ensures var (t', id) := ProductFor(t, barcode);
      && Valid(t') && t' == t.(products := t'.products) && t.products <= t'.products
      && id < |t'.products| && t'.products[id].barcode == Some(barcode)
  {
    if First(t.products, HasBarcode(barcode)).None? {
      assert forall j :: 0 <= j < |t.products| ==> !HasBarcode(barcode)(t.products[j]);
      assert ProductsUnique(t.products + [ProductRow(Some(barcode))]);
    }
  }

  /** An alias of existing rows is found or added; either way the tables stay valid. */
  lemma AliasForValid(t: Tables, row: AliasRow)
    requires Valid(t) && row.seller < |t.sellers| && row.product < |t.products|
    ensures var (t', id) := AliasFor(t, row);
      && Valid(t') && t' == t.(aliases := t'.aliases) && t.aliases <= t'.aliases
      && id < |t'.aliases| && t'.aliases[id] == row
  {
    if First(t.aliases, IsRow(row)).None? {
      assert forall j :: 0 <= j < |t.aliases| ==> !IsRow(row)(t.aliases[j]);
      assert AliasesUnique(t.aliases + [row]);
    }
  }

  /** A new product with its alias keeps the tables valid. */
  lemma NewProductAliasValid(t: Tables, seller: nat, name: JsonValue)
    requires Valid(t) && seller < |t.sellers|
    ensures var (t', id) := NewProductAlias(t, seller, name);
      && Valid(t') && t' == t.(products := t'.products, aliases := t'.aliases)
      && t.products <= t'.products && t.aliases <= t'.aliases
      && AliasOf(t', id, seller, JsonItem(name, None, 0, name, 0))
  {
    var row := AliasRow(seller, |t.products|, name);
    assert forall j :: 0 <= j < |t.aliases| ==> t.aliases[j] != row;
    assert AliasesUnique(t.aliases + [row]);
    assert ProductsUnique(t.products + [ProductRow(None)]);
  }

  /**
   * The alias an item resolves to belongs to the seller, carries the item's name and,
   * for an item with a barcode, a product with that barcode; an item without a barcode
   * reuses the first alias of that name, and the tables only grow and stay valid.
   */
  lemma AliasResolved(t: Tables, seller: nat, item: JsonItem)
    requires Valid(t) && seller < |t.sellers|
    ensures var (t', alias) := ResolveAlias(t, seller, item);
      && Valid(t') && t' == t.(products := t'.products, aliases := t'.aliases)
      && t.products <= t'.products && t.aliases <= t'.aliases
      && AliasOf(t', alias, seller, item)
      && (item.barcode.None? && First(t.aliases, NamedBy(seller, item.name)).Some? ==> t' == t)
  {
    match item.barcode
    case Some(barcode) =>
      var (t1, product) := ProductFor(t, barcode);
      ProductForValid(t, barcode);
      AliasForValid(t1, AliasRow(seller, product, item.name));
    case None =>
      if First(t.aliases, NamedBy(seller, item.name)).None? {
        NewProductAliasValid(t, seller, item.name);
      }
  }

  /** One item: one more item row storing it, the tables only growing and staying valid. */
  lemma ItemSaved(t: Tables, seller: nat, receipt: nat, item: JsonItem)
    requires Valid(t) && seller < |t.sellers| && receipt < |t.receipts|
    ensures var t' := SaveItem(t, seller, receipt, item);
      && Valid(t') && t'.sellers == t.sellers && t'.receipts == t.receipts
      && t.products <= t'.products && t.aliases <= t'.aliases && t.items <= t'.items
      && |t'.items| == |t.items| + 1 && RowSaved(t', |t.items|, seller, receipt, item)
  {
    AliasResolved(t, seller, item);
  }

  /** Saving items only appends rows, and the tables stay linked and unique. */
  lemma {:induction false} ItemsGrow(t: Tables, seller: nat, receipt: nat, items: seq<JsonItem>)
    requires Valid(t) && seller < |t.sellers| && receipt < |t.receipts|
    ensures var t' := SaveItems(t, seller, receipt, items);
      && Valid(t') && t'.sellers == t.sellers && t'.receipts == t.receipts
      && t.products <= t'.products && t.aliases <= t'.aliases && t.items <= t'.items
      && |t'.items| == |t.items| + |items|
  {
    if items != [] {
      var front := items[..|items| - 1];
      ItemsGrow(t, seller, receipt, front);
      ItemSaved(SaveItems(t, seller, receipt, front), seller, receipt, items[|items| - 1]);
    }
  }

  /**
   * Saving items appends one item row per JSON item, in order, each on the receipt with
   * the item's amounts and naming an alias of the seller with the item's name (and the
   * item's barcode where it has one).
   */
  lemma {:induction false} ItemsSaved(t: Tables, seller: nat, receipt: nat, items: seq<JsonItem>)
    requires Valid(t) && seller < |t.sellers| && receipt < |t.receipts|
    ensures var t' := SaveItems(t, seller, receipt, items);
      forall k :: 0 <= k < |items| ==> RowSaved(t', |t.items| + k, seller, receipt, items[k])
  {
    if items != [] {
      var n := |items| - 1;
      var front := items[..n];
      var m := SaveItems(t, seller, receipt, front);
      ItemsSaved(t, seller, receipt, front);
      ItemsGrow(t, seller, receipt, front);
      ItemSaved(m, seller, receipt, items[n]);
      var t' := SaveItem(m, seller, receipt, items[n]);
      forall k | 0 <= k < n
        ensures RowSaved(t', |t.items| + k, seller, receipt, items[k])
      {
        assert front[k] == items[k];
        RowSavedKept(m, t', |t.items| + k, seller, receipt, items[k]);
      }
    }
  }

  /** The header: the seller got or created by tax id and one new receipt row on it. */
  lemma HeaderSaved(t: Tables, doc: JsonReceipt, buyer: nat, created: DateTime)
    requires Valid(t)
    ensures var (t', seller) := SaveHeader(t, doc, buyer, created);
      && Valid(t') && t'.products == t.products && t'.aliases == t.aliases && t'.items == t.items
      && t.sellers <= t'.sellers && t'.receipts == t.receipts + [t'.receipts[|t.receipts|]]
      && seller < |t'.sellers| && t'.sellers[seller].individualNumber == doc.userInn
      && t'.receipts[|t.receipts|] == ReceiptRow(seller, buyer, created, doc.fiscalDriveNumber,
           doc.fiscalDocumentNumber, doc.fiscalSign)
  {
    SellerForValid(t, doc.userInn, doc.user);
  }

  /**
   * A saved receipt: the seller with the JSON tax id, added under the JSON name only if
   * absent, one new receipt row with the buyer, the identifiers and the UTC timestamp,
   * and one item row per JSON item; nothing fails once the timestamp reads, and the
   * tables stay linked and unique.
   */
  lemma ReceiptSaved(t: Tables, doc: JsonReceipt, buyer: nat)
    requires Valid(t)
    ensures SaveReceipt(t, doc, buyer).Some? <==> CreatedOf(doc).Some?
    ensures SaveReceipt(t, doc, buyer).Some? ==>
      var t' := SaveReceipt(t, doc, buyer).value;
      var id := |t.receipts|;
      && Valid(t')
      && |t'.receipts| == id + 1 && t.receipts <= t'.receipts
      && var row := t'.receipts[id];
      && row.seller < |t'.sellers| && t'.sellers[row.seller].individualNumber == doc.userInn
      && row == ReceiptRow(row.seller, buyer, CreatedOf(doc).value, doc.fiscalDriveNumber, doc.fiscalDocumentNumber, doc.fiscalSign)
      && |t'.items| == |t.items| + |doc.items| && t.items <= t'.items
      && forall k :: 0 <= k < |doc.items| ==> RowSaved(t', |t.items| + k, row.seller, id, doc.items[k])
  {
    if CreatedOf(doc).Some? {
      var created := CreatedOf(doc).value;
      var (t2, seller) := SaveHeader(t, doc, buyer, created);
      HeaderSaved(t, doc, buyer, created);
      ItemsGrow(t2, seller, |t.receipts|, doc.items);
      ItemsSaved(t2, seller, |t.receipts|, doc.items);
      var t' := SaveItems(t2, seller, |t.receipts|, doc.items);
      assert SaveReceipt(t, doc, buyer) == Some(t');
      assert t'.receipts[|t.receipts|] == t2.receipts[|t.receipts|];
    }
  }

  /**
   * One task handled: either the database is exactly as before (the registry did not
   * answer 200 with a receipt, or its timestamp did not read), or the receipt is saved
   * and the task, and only it, is complete. The tables stay linked and unique.
   */
  lemma HandleTaskMeaning(db: Database, k: nat, network: seq<Response<JsonBody>>)
    requires Valid(db.tables) && k < |db.tasks|
    ensures var db', polled := HandleTask(db, k, network), PollForever(network, 0);
      && Valid(db'.tables)
      && (db' == db || db'.tasks == db.tasks[k := db.tasks[k].(status := Complete)])
      && (db' != db <==> Succeeds(network))
      && (db' != db ==> Some(db'.tables) == SaveReceipt(db.tables, polled.fetch.body.value, db.tasks[k].buyer))
  {
    var polled := PollForever(network, 0);
    if !(polled.fetch.FetchFailed? || polled.fetch.body.None?) {
      ReceiptSaved(db.tables, polled.fetch.body.value, db.tasks[k].buyer);
    }
  }

  /**
   * The tasks handled one after another: a handled task whose registry yields a readable
   * receipt ends complete, one that fails keeps its status, and a failing task does not
   * stop the tasks after it; tasks not handled are untouched, and the tables stay linked
   * and unique throughout.
   */
  lemma {:induction false} HandleAllMeaning(db: Database, ids: seq<nat>, networks: nat -> seq<Response<JsonBody>>)
    requires Valid(db.tables) && forall j :: 0 <= j < |ids| ==> ids[j] < |db.tasks|
    ensures var r := HandleAll(db, ids, networks);
      && Valid(r.tables)
      && forall k :: 0 <= k < |db.tasks| ==>
           r.tasks[k] == if k in ids && Succeeds(networks(k)) then db.tasks[k].(status := Complete) else db.tasks[k]
  {
    if ids != [] {
      var front := ids[..|ids| - 1];
      var m := HandleAll(db, front, networks);
      HandleAllMeaning(db, front, networks);
      var last := ids[|ids| - 1];
      HandleTaskMeaning(m, last, networks(last));
      var r := HandleAll(db, ids, networks);
      assert ids == front + [last];
      forall k | 0 <= k < |db.tasks|
        ensures r.tasks[k] == if k in ids && Succeeds(networks(k)) then db.tasks[k].(status := Complete) else db.tasks[k]
      {
        assert k in ids <==> k in front || k == last;
      }
    }
  }

  /**
   * `handle`: the pending tasks are those new or incomplete, in order; each of them ends
   * complete exactly when its registry yields a readable receipt and keeps its status
   * otherwise, tasks already complete are never touched, and the tables stay linked and
   * unique.
   */
  lemma HandleMeaning(db: Database, networks: nat -> seq<Response<JsonBody>>)
    requires Valid(db.tables)
    ensures var r := HandleAll(db, PendingFrom(db.tasks, 0), networks);
      && Valid(r.tables) && |r.tasks| == |db.tasks|
      && (forall k :: 0 <= k < |db.tasks| && Pending(db.tasks[k]) ==>
            r.tasks[k] == if Succeeds(networks(k)) then db.tasks[k].(status := Complete) else db.tasks[k])
      && (forall k :: 0 <= k < |db.tasks| && !Pending(db.tasks[k]) ==> r.tasks[k] == db.tasks[k])
  {
    HandleAllMeaning(db, PendingFrom(db.tasks, 0), networks);
  }

  /**
   * The database the command works on: the task queue and the receipt tables as fields
   * the transaction updates and, on an exception, restores.
   */
  class Store {
    var tasks: seq<Task>
    var sellers: seq<SellerRow>
    var products: seq<ProductRow>
    var aliases: seq<AliasRow>
    var receipts: seq<ReceiptRow>
    var items: seq<ItemRow>

    function Snapshot(): Tables
      reads this
    {
      Tables(sellers, products, aliases, receipts, items)
    }

    function Contents(): Database
      reads this
    {
      Database(tasks, Snapshot())
    }

    constructor (db: Database)
      ensures Contents() == db
    {
      tasks := db.tasks;
      sellers := db.tables.sellers;
      products := db.tables.products;
      aliases := db.tables.aliases;
      receipts := db.tables.receipts;
      items := db.tables.items;
    }

    /** The tables set to `t`: what the ORM writes, and what a rollback restores. */
    method Load(t: Tables)
      modifies this
      ensures Snapshot() == t && tasks == old(tasks)
    {
      sellers := t.sellers;
      products := t.products;
      aliases := t.aliases;
      receipts := t.receipts;
      items := t.items;
    }

    /** One turn of the item loop: the alias got or created, then the item row. */
    method SaveItemRow(seller: nat, receipt: nat, item: JsonItem)
      modifies this
      ensures tasks == old(tasks) && Snapshot() == SaveItem(old(Snapshot()), seller, receipt, item)
    {
      var (t, alias) := ResolveAlias(Snapshot(), seller, item);
      Load(t);
      items := items + [ItemRow(receipt, alias, item.price, item.quantity, item.sum)];
    }

    /** The item loop of `_save_receipt`. */
    method SaveItemRows(seller: nat, receipt: nat, jsonItems: seq<JsonItem>)
      modifies this
      ensures tasks == old(tasks) && Snapshot() == SaveItems(old(Snapshot()), seller, receipt, jsonItems)
    {
      var header := Snapshot();
      for i := 0 to |jsonItems|
        invariant tasks == old(tasks)
        invariant Snapshot() == SaveItems(header, seller, receipt, jsonItems[..i])
      {
        SaveItemRow(seller, receipt, jsonItems[i]);
        assert jsonItems[..i + 1][..i] == jsonItems[..i];
      }
      assert jsonItems[..|jsonItems|] == jsonItems;
    }

    /**
     * `_save_receipt`: the seller is got or created, then the receipt row is created,
     * which raises when the timestamp does not read, leaving the seller behind for the
     * rollback; then one alias and one item row per JSON item.
     */
    method Save(doc: JsonReceipt, buyer: nat) returns (ok: bool)
      modifies this
      ensures tasks == old(tasks)
      ensures ok <==> SaveReceipt(old(Snapshot()), doc, buyer).Some?
      ensures ok ==> Some(Snapshot()) == SaveReceipt(old(Snapshot()), doc, buyer)
      ensures !ok ==> Snapshot() == SellerFor(old(Snapshot()), doc.userInn, doc.user).0
    {
      var start := Snapshot();
      var (t1, seller) := SellerFor(start, doc.userInn, doc.user);
      Load(t1);
      var created := CreatedOf(doc);
      if created.None? {
        return false;
      }
      receipts := receipts + [ReceiptRow(seller, buyer, created.value, doc.fiscalDriveNumber,
        doc.fiscalDocumentNumber, doc.fiscalSign)];
      assert (Snapshot(), seller) == SaveHeader(start, doc, buyer, created.value);
      SaveItemRows(seller, |start.receipts|, doc.items);
      ok := true;
    }

    /**
     * `_handle_task`: within one transaction the task is marked incomplete, the registry
     * polled every three seconds until it stops answering 202, the receipt saved and the
     * task marked complete; on any failure the whole database is restored.
     */
    method HandleOne(k: nat, network: seq<Response<JsonBody>>)
      requires k < |tasks|
      modifies this
      ensures Contents() == HandleTask(old(Contents()), k, network)
    {
      var before := Contents();
      tasks := tasks[k := tasks[k].(status := Incomplete)];
      var polled := PollUnbounded(network);
      if polled.fetch.FetchFailed? || polled.fetch.body.None? {
        tasks := before.tasks;
        Load(before.tables);
        return;
      }
      var ok := Save(polled.fetch.body.value, before.tasks[k].buyer);
      if !ok {
        tasks := before.tasks;
        Load(before.tables);
        return;
      }
      tasks := tasks[k := tasks[k].(status := Complete)];
      assert tasks == before.tasks[k := before.tasks[k].(status := Complete)];
    }

    /** `handle`: every task that is new or incomplete when the command starts, in order. */
    method Handle(networks: nat -> seq<Response<JsonBody>>)
      modifies this
      ensures Contents() == HandleAll(old(Contents()), PendingFrom(old(tasks), 0), networks)
    {
      var ids := PendingFrom(tasks, 0);
      for j := 0 to |ids|
        invariant |tasks| == |old(tasks)|
        invariant Contents() == HandleAll(old(Contents()), ids[..j], networks)
      {
        assert ids[..j + 1][..j] == ids[..j];
        HandleOne(ids[j], networks(ids[j]));
      }
      assert ids[..|ids|] == ids;
    }
  }
}
