/** The database as the request handlers see it. The table fields hold the
    rows as the open transaction's client sees them, its own writes included;
    `committed` holds the rows as of the last COMMIT, which is what a query
    through the shared pool sees. ROLLBACK puts the committed rows back. */
module Db {
  import opened Inventory
  import Integrity

  class Database {
    var stock: map<StockKey, int>
    var ledger: seq<LedgerEntry>
    var products: map<ProductId, Product>
    var locations: set<LocationId>
    var receipts: map<DocId, Document<LineItem>>
    var deliveries: map<DocId, Document<LineItem>>
    var transfers: map<DocId, Document<TransferItem>>
    var adjustments: map<DocId, Adjustment>
    var committed: Tables

    /** The rows as the transaction client sees them. */
    function Current(): Tables
      reads this
    {
      Tables(stock, ledger, products, locations, receipts, deliveries, transfers, adjustments)
    }

    /** The committed rows keep the integrity invariant. */
    ghost predicate Valid()
      reads this
    {
      Integrity.Consistent(committed)
    }

    /** No transaction holds uncommitted writes. */
    predicate Idle()
      reads this
    {
      Current() == committed
    }

    constructor (locations: set<LocationId>)
      ensures Valid() && Idle()
      ensures Current() == Integrity.Empty(locations)
    {
      stock, ledger, products, this.locations := map[], [], map[], locations;
      receipts, deliveries, transfers, adjustments := map[], map[], map[], map[];
      committed := Integrity.Empty(locations);
      Integrity.EmptyConsistent(locations);
    }

    /** COMMIT: the transaction's rows become the committed rows. */
    method Commit()
      requires Integrity.Consistent(Current())
      modifies this`committed
      ensures Valid() && Idle()
      ensures committed == Current()
    {
      committed := Current();
    }

    /** ROLLBACK: every write of the transaction is discarded. */
    method Rollback()
      modifies this
      ensures committed == old(committed)
      ensures Idle()
    {
      stock, ledger, products, locations := committed.stock, committed.ledger, committed.products, committed.locations;
      receipts, deliveries := committed.receipts, committed.deliveries;
      transfers, adjustments := committed.transfers, committed.adjustments;
    }
  }
}
