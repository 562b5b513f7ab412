/** The invariant the committed tables keep: the ledger is chained and sums
    to the stock, every entry is traceable to exactly one causing record, and
    every record names an existing product. */
module Integrity {
  import opened Inventory
  import opened Ledger

  /** An entry refers to a record of the kind it names; a receipt, delivery
      or transfer only once it is validated. */
  ghost predicate Documented(t: Tables, e: LedgerEntry)
  {
    match e.ref.kind
    case RefReceipt => e.ref.id in t.receipts && t.receipts[e.ref.id].status == Validated
    case RefDelivery => e.ref.id in t.deliveries && t.deliveries[e.ref.id].status == Validated
    case RefTransfer => e.ref.id in t.transfers && t.transfers[e.ref.id].status == Validated
    case RefStockAdjustment => e.ref.id in t.adjustments
    case RefInitialStock => e.ref.id in t.products && e.ref.id == e.key.product
  }

  /** A validated document of a table has `perLine` entries per line in the
      ledger; any other document has none. */
  ghost predicate DocsTraced<I>(docs: map<DocId, Document<I>>, ledger: seq<LedgerEntry>, kind: RefKind, perLine: nat)
  {
    forall id :: id in docs ==>
      CountRef(ledger, Reference(kind, id)) == (if docs[id].status == Validated then perLine * |docs[id].items| else 0)
  }

  ghost predicate Traceable(t: Tables)
  {
    && (forall i :: 0 <= i < |t.ledger| ==> Documented(t, t.ledger[i]))
    && DocsTraced(t.receipts, t.ledger, RefReceipt, 1)
    && DocsTraced(t.deliveries, t.ledger, RefDelivery, 1)
    && DocsTraced(t.transfers, t.ledger, RefTransfer, 2)
    && (forall id :: id in t.adjustments ==> CountRef(t.ledger, Reference(RefStockAdjustment, id)) == 1)
    && (forall id :: id in t.products ==> CountRef(t.ledger, Reference(RefInitialStock, id)) <= 1)
  }

  predicate LinesKnown(items: seq<LineItem>, products: map<ProductId, Product>)
  {
    forall i :: 0 <= i < |items| ==> items[i].product in products
  }

  predicate TransferLinesKnown(items: seq<TransferItem>, products: map<ProductId, Product>)
  {
    forall i :: 0 <= i < |items| ==> items[i].product in products
  }

  /** The foreign keys into products hold. */
  ghost predicate ProductsReferenced(t: Tables)
  {
    && (forall i :: 0 <= i < |t.ledger| ==> t.ledger[i].key.product in t.products)
    && (forall id :: id in t.receipts ==> LinesKnown(t.receipts[id].items, t.products))
    && (forall id :: id in t.deliveries ==> LinesKnown(t.deliveries[id].items, t.products))
    && (forall id :: id in t.transfers ==> TransferLinesKnown(t.transfers[id].items, t.products))
    && (forall id :: id in t.adjustments ==> t.adjustments[id].product in t.products)
  }

  ghost predicate Consistent(t: Tables)
  {
    Chained(t.ledger) && Reconstructs(t.stock, t.ledger) && Traceable(t) && ProductsReferenced(t)
  }

  /** The tables of a fresh database. */
  function Empty(locations: set<LocationId>): Tables
  {
    Tables(map[], [], map[], locations, map[], map[], map[], map[])
  }

  lemma EmptyConsistent(locations: set<LocationId>)
    ensures Consistent(Empty(locations))
  {
  }

  /** No stock row of consistent tables is negative. */
  lemma ConsistentNonNegative(t: Tables)
    requires Consistent(t)
    ensures NonNegative(t.stock)
  {
    ReconstructedNonNegative(t.stock, t.ledger);
  }

  /** Appending entries that all carry `ref` raises its count by their number
      and leaves every other count as it was. */
  lemma CountAfterAppend(ledger: seq<LedgerEntry>, entries: seq<LedgerEntry>, ref: Reference)
    requires forall i :: 0 <= i < |entries| ==> entries[i].ref == ref
    ensures forall r :: CountRef(ledger + entries, r) == CountRef(ledger, r) + (if r == ref then |entries| else 0)
  {
    forall r
      ensures CountRef(ledger + entries, r) == CountRef(ledger, r) + (if r == ref then |entries| else 0)
    {
      CountRefConcat(ledger, entries, r);
      CountRefUniform(entries, ref, r);
    }
  }

  /** Validating a draft document and appending its entries keeps its table traced. */
  lemma ValidatedDocTraced<I>(docs: map<DocId, Document<I>>, ledger: seq<LedgerEntry>, entries: seq<LedgerEntry>,
                              kind: RefKind, perLine: nat, id: DocId, user: UserId)
    requires DocsTraced(docs, ledger, kind, perLine)
    requires id in docs && docs[id].status == Draft
    requires |entries| == perLine * |docs[id].items|
    requires forall i :: 0 <= i < |entries| ==> entries[i].ref == Reference(kind, id)
    ensures DocsTraced(docs[id := docs[id].(status := Validated, validatedBy := Some(user))], ledger + entries, kind, perLine)
  {
    CountAfterAppend(ledger, entries, Reference(kind, id));
  }

  /** Entries caused by a record of another kind leave a table's counts alone. */
  lemma OtherDocsTraced<I>(docs: map<DocId, Document<I>>, ledger: seq<LedgerEntry>, entries: seq<LedgerEntry>,
                           kind: RefKind, perLine: nat, ref: Reference)
    requires DocsTraced(docs, ledger, kind, perLine)
    requires ref.kind != kind
    requires forall i :: 0 <= i < |entries| ==> entries[i].ref == ref
    ensures DocsTraced(docs, ledger + entries, kind, perLine)
  {
    CountAfterAppend(ledger, entries, ref);
  }

  /** A new draft document with a fresh id has no entries and keeps its table traced. */
  lemma NewDraftTraced<I>(t: Tables, docs: map<DocId, Document<I>>, kind: RefKind, perLine: nat, id: DocId, doc: Document<I>)
    requires Traceable(t) && DocsTraced(docs, t.ledger, kind, perLine)
    requires doc.status == Draft
    requires forall i :: 0 <= i < |t.ledger| ==> t.ledger[i].ref != Reference(kind, id)
    ensures DocsTraced(docs[id := doc], t.ledger, kind, perLine)
  {
    CountRefAbsent(t.ledger, Reference(kind, id));
  }
}
