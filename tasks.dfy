/**
 * The background task that turns receipt parameters into stored rows: the parameters
 * travel to the worker as a plain dictionary, the configured retriever is asked for the
 * receipt, and a retrieved receipt is written to the seller, product, alias, receipt and
 * item tables; a receipt that could not be retrieved reschedules the task.
 */
module Tasks {
  import opened Base
  import opened Decimals
  import opened DateTimes
  import opened Lib
  import opened Retrievers

  // ---------------------------------------------------------------- parameters as a message

  /**
   * `ReceiptParamsDict`: the identifiers copied as integers, `created` as ISO 8601 text and
   * `amount` as the text of the decimal.
   */
  datatype ParamsDict = ParamsDict(
    fiscalDriveNumber: nat,
    fiscalDocumentNumber: nat,
    fiscalSign: nat,
    created: string,
    amount: string)

  /** `receipt_params_to_dict`. */
  function ToDict(p: ReceiptParams): (d: ParamsDict)
    requires Valid(p.created)
  {
    ParamsDict(p.fiscalDriveNumber, p.fiscalDocumentNumber, p.fiscalSign, IsoFormat(p.created), Decimals.ToString(p.amount))
  }

  /**
   * `dict_to_receipt_params`: `None` stands for the exception `fromisoformat` or
   * `Decimal` raises on text they cannot read.
   */
  function FromDict(d: ParamsDict): (r: Option<ReceiptParams>)
    ensures r.Some? <==> FromIsoFormat(d.created).Some? && ParseDecimal(d.amount).Some?
    ensures r.Some? ==>
      && r.value.fiscalDriveNumber == d.fiscalDriveNumber
      && r.value.fiscalDocumentNumber == d.fiscalDocumentNumber
      && r.value.fiscalSign == d.fiscalSign
  {
    match (FromIsoFormat(d.created), ParseDecimal(d.amount))
    case (Some(created), Some(amount)) =>
      Some(ReceiptParams(d.fiscalDriveNumber, d.fiscalDocumentNumber, d.fiscalSign, created, amount))
    case _ => None
  }

  /** The dictionary form loses nothing: reading it back gives the same parameters. */
  lemma DictRoundTrip(p: ReceiptParams)
    requires Valid(p.created)
    ensures FromDict(ToDict(p)) == Some(p)
  {
    IsoRoundTrip(p.created);
    ParseToString(p.amount);
  }

  // ---------------------------------------------------------------- retrieval

  /** `_retrieve_receipt`: the retriever's answer, with an exception turned into `None`. */
  function RetrieveReceipt(o: Outcome): (r: Option<ParsedReceipt>)
    ensures r.Some? <==> Truthy(o)
    ensures r.Some? ==> o == Found(r.value)
  {
    match o
    case Found(receipt) => Some(receipt)
    case NotFound => None
    case Failed(_) => None
  }

  // ---------------------------------------------------------------- the tables

  /** A seller row: its tax id and the name it was first stored under. */
  datatype SellerRow = SellerRow(individualNumber: string, originalName: string)

  /** A product alias row: the seller and product it links, and the name the seller uses. */
  datatype AliasRow = AliasRow(seller: nat, product: nat, name: string)

  /** A receipt row. */
  datatype ReceiptRow = ReceiptRow(
    seller: nat,
    buyer: nat,
    created: DateTime,
    fiscalDriveNumber: string,
    fiscalDocumentNumber: string,
    fiscalSign: string)

  /** A receipt item row: its receipt, its alias and the three amounts. */
  datatype ItemRow = ItemRow(receipt: nat, productAlias: nat, price: Number, quantity: Number, total: Number)

  /**
   * All tables, a row's id being its position. Products carry no data when the task
   * creates them, so only their number is kept.
   */
  datatype Tables = Tables(
    sellers: seq<SellerRow>,
    products: nat,
    aliases: seq<AliasRow>,
    receipts: seq<ReceiptRow>,
    items: seq<ItemRow>)

  function HasTaxId(individualNumber: string): SellerRow -> bool
  {
    (s: SellerRow) => s.individualNumber == individualNumber
  }

  function NamedBy(seller: nat, name: string): AliasRow -> bool
  {
    (a: AliasRow) => a.seller == seller && a.name == name
  }

  /** `seller_repository.get_or_create`: the seller with this tax id, added with `name` if there is none. */
  function SellerFor(t: Tables, individualNumber: string, name: string): (r: (Tables, nat))
  {
    match First(t.sellers, HasTaxId(individualNumber))
    case Some(id) => (t, id)
    case None => (t.(sellers := t.sellers + [SellerRow(individualNumber, name)]), |t.sellers|)
  }

  /**
   * One parsed item stored: the seller's alias with the item's name is reused, or a new
   * product and alias are created, and the item row points at that alias.
   */
  function StoreItem(t: Tables, seller: nat, receipt: nat, item: ParsedReceiptItem): Tables
  {
    match First(t.aliases, NamedBy(seller, item.name))
    case Some(alias) =>
      t.(items := t.items + [ItemRow(receipt, alias, item.price, item.quantity, item.total)])
    case None =>
      t.(products := t.products + 1,
         aliases := t.aliases + [AliasRow(seller, t.products, item.name)],
         items := t.items + [ItemRow(receipt, |t.aliases|, item.price, item.quantity, item.total)])
  }

  /** The items stored one after another, in order. */
  function StoreItems(t: Tables, seller: nat, receipt: nat, items: seq<ParsedReceiptItem>): Tables
  {
    if items == [] then t
    else StoreItem(StoreItems(t, seller, receipt, items[..|items| - 1]), seller, receipt, items[|items| - 1])
  }

  /** `_store_to_db`: the seller, then one receipt row, then its items. */
  function Store(t: Tables, buyer: nat, r: ParsedReceipt): Tables
  {
    var (t1, seller) := SellerFor(t, r.sellerIndividualNumber, r.sellerName);
    var t2 := t1.(receipts := t1.receipts + [ReceiptRow(seller, buyer, r.created, r.fiscalDriveNumber, r.fiscalDocumentNumber, r.fiscalSign)]);
    StoreItems(t2, seller, |t1.receipts|, r.items)
  }

  /** The rows that are there: every alias and item points at an existing row. */
  predicate Linked(t: Tables)
  {
    && (forall k :: 0 <= k < |t.aliases| ==> t.aliases[k].seller < |t.sellers| && t.aliases[k].product < t.products)
    && (forall k :: 0 <= k < |t.receipts| ==> t.receipts[k].seller < |t.sellers|)
    && (forall k :: 0 <= k < |t.items| ==> t.items[k].receipt < |t.receipts| && t.items[k].productAlias < |t.aliases|)
  }

  // ---------------------------------------------------------------- what storing does

  /**
   * Item row `id` of `t` stores `item` on `receipt`: the item's own amounts, and an alias
   * of `seller` that carries the item's name.
   */
  predicate RowStored(t: Tables, id: nat, seller: nat, receipt: nat, item: ParsedReceiptItem)
  {
    && id < |t.items|
    && var row := t.items[id];
    && row.receipt == receipt
    && row.price == item.price && row.quantity == item.quantity && row.total == item.total
    && row.productAlias < |t.aliases|
    && t.aliases[row.productAlias].seller == seller && t.aliases[row.productAlias].name == item.name
  }


  /**
   * The seller is found by tax id: an existing seller is used as it is, name included,
   * and a new one is added with the parsed name only when none has that tax id.
   */
  lemma SellerByTaxId(t: Tables, individualNumber: string, name: string)
    ensures var (t', id) := SellerFor(t, individualNumber, name);
      && id < |t'.sellers| && t'.sellers[id].individualNumber == individualNumber
      && t'.(sellers := t.sellers) == t
      && (First(t.sellers, HasTaxId(individualNumber)).Some? ==> t' == t)
      && (First(t.sellers, HasTaxId(individualNumber)).None? ==> t'.sellers == t.sellers + [SellerRow(individualNumber, name)])
  {
  }

  /** An item whose name the seller already has an alias for reuses that alias and creates nothing else. */
  lemma AliasReused(t: Tables, seller: nat, receipt: nat, item: ParsedReceiptItem, alias: nat)
    requires alias < |t.aliases| && t.aliases[alias] == AliasRow(seller, t.aliases[alias].product, item.name)
    requires forall j :: 0 <= j < alias ==> !(t.aliases[j].seller == seller && t.aliases[j].name == item.name)
    ensures StoreItem(t, seller, receipt, item) ==
      t.(items := t.items + [ItemRow(receipt, alias, item.price, item.quantity, item.total)])
  {
    assert NamedBy(seller, item.name)(t.aliases[alias]);
  }

  /** An item with a name the seller has no alias for gets a new product and a new alias. */
  lemma AliasCreated(t: Tables, seller: nat, receipt: nat, item: ParsedReceiptItem)
    requires forall j :: 0 <= j < |t.aliases| ==> !(t.aliases[j].seller == seller && t.aliases[j].name == item.name)
    ensures var t' := StoreItem(t, seller, receipt, item);
      && t'.products == t.products + 1
      && t'.aliases == t.aliases + [AliasRow(seller, t.products, item.name)]
      && t'.items == t.items + [ItemRow(receipt, |t.aliases|, item.price, item.quantity, item.total)]
  {
    assert forall j :: 0 <= j < |t.aliases| ==> !NamedBy(seller, item.name)(t.aliases[j]);
  }

  /**
   * Storing items appends exactly one item row per parsed item, in order, each on the
   * given receipt with the item's own price, quantity and total, and each pointing at an
   * alias of this seller that carries the item's name. Earlier rows are left as they
   * were; sellers and receipts are not touched.
   */
  lemma {:induction false} ItemsStored(t: Tables, seller: nat, receipt: nat, items: seq<ParsedReceiptItem>)
    ensures var t' := StoreItems(t, seller, receipt, items);
      && t'.sellers == t.sellers && t'.receipts == t.receipts
      && t.products <= t'.products
      && |t'.aliases| >= |t.aliases| && t'.aliases[..|t.aliases|] == t.aliases
      && |t'.items| == |t.items| + |items| && t'.items[..|t.items|] == t.items
      && forall k :: 0 <= k < |items| ==> RowStored(t', |t.items| + k, seller, receipt, items[k])
  {
    if items != [] {
      var n := |items| - 1;
      var front := items[..n];
      var m := StoreItems(t, seller, receipt, front);
      ItemsStored(t, seller, receipt, front);
      var t' := StoreItem(m, seller, receipt, items[n]);
      assert t' == StoreItems(t, seller, receipt, items);
      StoreItemStep(m, seller, receipt, items[n]);
      RowsStoredKept(t, m, t', seller, receipt, items, front);
    }
  }

  /** The inductive step of `ItemsStored`: the rows of the front stay stored once the last item is appended. */
  lemma RowsStoredKept(t: Tables, m: Tables, t': Tables, seller: nat, receipt: nat, items: seq<ParsedReceiptItem>, front: seq<ParsedReceiptItem>)
    requires |items| >= 1 && front == items[..|items| - 1]
    requires |m.items| == |t.items| + |items| - 1 && m.items[..|t.items|] == t.items
    requires |m.aliases| >= |t.aliases| && m.aliases[..|t.aliases|] == t.aliases
    requires forall k :: 0 <= k < |items| - 1 ==> RowStored(m, |t.items| + k, seller, receipt, front[k])
    requires |t'.aliases| >= |m.aliases| && t'.aliases[..|m.aliases|] == m.aliases
    requires |t'.items| == |m.items| + 1 && t'.items[..|m.items|] == m.items
    requires RowStored(t', |m.items|, seller, receipt, items[|items| - 1])
    ensures |t'.items| == |t.items| + |items| && t'.items[..|t.items|] == t.items
    ensures |t'.aliases| >= |t.aliases| && t'.aliases[..|t.aliases|] == t.aliases
    ensures forall k :: 0 <= k < |items| ==> RowStored(t', |t.items| + k, seller, receipt, items[k])
  {
    var n := |items| - 1;
    assert t'.items[..|t.items|] == m.items[..|t.items|];
    assert t'.aliases[..|t.aliases|] == m.aliases[..|t.aliases|];
    forall k | 0 <= k < |items|
      ensures RowStored(t', |t.items| + k, seller, receipt, items[k])
    {
      if k < n {
        assert front[k] == items[k];
        RowStoredKept(m, t', |t.items| + k, seller, receipt, items[k]);
      }
    }
  }

  /** One stored item: one item row appended for it, earlier rows kept, nothing else touched. */
  lemma StoreItemStep(m: Tables, seller: nat, receipt: nat, item: ParsedReceiptItem)
    ensures var t' := StoreItem(m, seller, receipt, item);
      && t'.sellers == m.sellers && t'.receipts == m.receipts && m.products <= t'.products
      && |t'.aliases| >= |m.aliases| && t'.aliases[..|m.aliases|] == m.aliases
      && |t'.items| == |m.items| + 1 && t'.items[..|m.items|] == m.items
      && RowStored(t', |m.items|, seller, receipt, item)
      && (Linked(m) && seller < |m.sellers| && receipt < |m.receipts| ==> Linked(t'))
  {
  }

  /** A stored row stays stored when rows are only appended after it. */
  lemma RowStoredKept(m: Tables, t': Tables, id: nat, seller: nat, receipt: nat, item: ParsedReceiptItem)
    requires RowStored(m, id, seller, receipt, item)
    requires |t'.items| >= |m.items| && t'.items[..|m.items|] == m.items
    requires |t'.aliases| >= |m.aliases| && t'.aliases[..|m.aliases|] == m.aliases
    ensures RowStored(t', id, seller, receipt, item)
  {
    var row := m.items[id];
    assert t'.items[id] == t'.items[..|m.items|][id] == row;
    assert t'.aliases[row.productAlias] == t'.aliases[..|m.aliases|][row.productAlias];
  }

  /**
   * `_store_to_db` as a whole: exactly one receipt row is added, for the seller with the
   * parsed tax id, the buyer and the parsed identifiers and timestamp, and it receives one
   * item row per parsed item in order, copying the amounts and naming the item's alias.
   */
  lemma StoreShape(t: Tables, buyer: nat, r: ParsedReceipt)
    ensures var t' := Store(t, buyer, r);
      var id := |t.receipts|;
      && |t'.receipts| == id + 1 && t'.receipts[..id] == t.receipts
      && var row := t'.receipts[id];
      && row.seller < |t'.sellers| && t'.sellers[row.seller].individualNumber == r.sellerIndividualNumber
      && row == ReceiptRow(row.seller, buyer, r.created, r.fiscalDriveNumber, r.fiscalDocumentNumber, r.fiscalSign)
      && |t'.items| == |t.items| + |r.items| && t'.items[..|t.items|] == t.items
      && forall k :: 0 <= k < |r.items| ==> RowStored(t', |t.items| + k, row.seller, id, r.items[k])
  {
    var (t1, seller) := SellerFor(t, r.sellerIndividualNumber, r.sellerName);
    SellerByTaxId(t, r.sellerIndividualNumber, r.sellerName);
    var t2 := t1.(receipts := t1.receipts + [ReceiptRow(seller, buyer, r.created, r.fiscalDriveNumber, r.fiscalDocumentNumber, r.fiscalSign)]);
    ItemsStored(t2, seller, |t1.receipts|, r.items);
  }

  /** Storing keeps every reference pointing at an existing row. */
  lemma {:induction false} StoreItemsLinked(t: Tables, seller: nat, receipt: nat, items: seq<ParsedReceiptItem>)
    requires Linked(t) && seller < |t.sellers| && receipt < |t.receipts|
    ensures Linked(StoreItems(t, seller, receipt, items))
  {
    if items != [] {
      var front := items[..|items| - 1];
      StoreItemsLinked(t, seller, receipt, front);
      ItemsStored(t, seller, receipt, front);
      StoreItemStep(StoreItems(t, seller, receipt, front), seller, receipt, items[|items| - 1]);
    }
  }

  lemma StoreLinked(t: Tables, buyer: nat, r: ParsedReceipt)
    requires Linked(t)
    ensures Linked(Store(t, buyer, r))
  {
    var (t1, seller) := SellerFor(t, r.sellerIndividualNumber, r.sellerName);
    SellerByTaxId(t, r.sellerIndividualNumber, r.sellerName);
    var t2 := t1.(receipts := t1.receipts + [ReceiptRow(seller, buyer, r.created, r.fiscalDriveNumber, r.fiscalDocumentNumber, r.fiscalSign)]);
    assert Linked(t2);
    StoreItemsLinked(t2, seller, |t1.receipts|, r.items);
  }

  // ---------------------------------------------------------------- the repositories and the task

  /** The five repositories over one in-memory database. */
  class Database {
    var sellers: seq<SellerRow>
    var products: nat
    var aliases: seq<AliasRow>
    var receipts: seq<ReceiptRow>
    var items: seq<ItemRow>

    constructor()
      ensures Snapshot() == Tables([], 0, [], [], [])
    {
      sellers, products, aliases, receipts, items := [], 0, [], [], [];
    }

    function Snapshot(): Tables
      reads this
    {
      Tables(sellers, products, aliases, receipts, items)
    }

    /** `seller_repository.get_or_create`. */
    method GetOrCreateSeller(individualNumber: string, name: string) returns (id: nat)
      modifies this
      ensures (Snapshot(), id) == SellerFor(old(Snapshot()), individualNumber, name)
    {
      var found := First(sellers, HasTaxId(individualNumber));
      if found.Some? {
        id := found.value;
      } else {
        id := |sellers|;
        sellers := sellers + [SellerRow(individualNumber, name)];
      }
    }

    /**
     * One turn of the item loop: the alias by seller and name, or a new product and
     * alias, then the item row.
     */
    method AddItem(seller: nat, receipt: nat, item: ParsedReceiptItem)
      modifies this
      ensures Snapshot() == StoreItem(old(Snapshot()), seller, receipt, item)
    {
      var alias: nat;
      var existing := First(aliases, NamedBy(seller, item.name));
      if existing.Some? {
        alias := existing.value;
      } else {
        var product := products;
        products := products + 1;
        alias := |aliases|;
        aliases := aliases + [AliasRow(seller, product, item.name)];
      }
      items := items + [ItemRow(receipt, alias, item.price, item.quantity, item.total)];
    }

    /** `_store_to_db`: the seller, the receipt, then a loop over the parsed items. */
    method StoreToDb(buyer: nat, r: ParsedReceipt)
      modifies this
      ensures Snapshot() == Store(old(Snapshot()), buyer, r)
    {
      var seller := GetOrCreateSeller(r.sellerIndividualNumber, r.sellerName);
      var receipt := |receipts|;
      receipts := receipts + [ReceiptRow(seller, buyer, r.created, r.fiscalDriveNumber, r.fiscalDocumentNumber, r.fiscalSign)];
      ghost var start := Snapshot();
      var i := 0;
      while i < |r.items|
        invariant 0 <= i <= |r.items|
        invariant Snapshot() == StoreItems(start, seller, receipt, r.items[..i])
      {
        AddItem(seller, receipt, r.items[i]);
        assert r.items[..i + 1][..i] == r.items[..i];
        i := i + 1;
      }
      assert r.items[..i] == r.items;
    }
  }

  /** How `add_receipt` ends. */
  datatype TaskEnd =
    | Stored                    // the receipt was retrieved and written
    | Retry(countdown: nat)     // `task.retry` with this many seconds to wait
    | BadMessage                // `dict_to_receipt_params` raised

  /** `timedelta(hours=1).total_seconds()`. */
  const RetryCountdown: nat := 3600

  /**
   * `add_receipt`: the receipt is stored exactly when the retriever returned one;
   * otherwise the task is rescheduled an hour later and the database is left as it was.
   */
  method AddReceipt(db: Database, buyer: nat, raw: ParamsDict, retriever: ReceiptParams -> Outcome) returns (e: TaskEnd)
    modifies db
    ensures e == BadMessage <==> FromDict(raw).None?
    ensures e == Stored <==> FromDict(raw).Some? && Truthy(retriever(FromDict(raw).value))
    ensures e.Retry? ==> e.countdown == RetryCountdown
    ensures e == Stored ==> db.Snapshot() == Store(old(db.Snapshot()), buyer, retriever(FromDict(raw).value).receipt)
    ensures e != Stored ==> db.Snapshot() == old(db.Snapshot())
  {
    var params := FromDict(raw);
    if params.None? {
      return BadMessage;
    }
    var parsed := RetrieveReceipt(retriever(params.value));
    if parsed.Some? {
      db.StoreToDb(buyer, parsed.value);
      e := Stored;
    } else {
      e := Retry(RetryCountdown);
    }
  }
}
