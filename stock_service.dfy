/** The stock service: reading a stock row, the read-compute-check-upsert
    step, the ledger append, and the four processors that walk a document's
    lines in order. Each processor is proved to do exactly what Movements.Run
    describes for the legs of its document. */
module StockService {
  import opened Inventory
  import opened Movements
  import opened Db

  /** getStock: the committed quantity of a row, through the pool (so
      blind to the open transaction's writes); a missing row reads as 0. */
  method GetStock(db: Database, product: ProductId, location: LocationId) returns (quantity: int)
    ensures StockKey(product, location) in db.committed.stock ==> quantity == db.committed.stock[StockKey(product, location)]
    ensures StockKey(product, location) !in db.committed.stock ==> quantity == 0
  {
    var key := StockKey(product, location);
    quantity := if key in db.committed.stock then db.committed.stock[key] else 0;
  }

  /** updateStock: reads the row through the transaction (0 when missing),
      refuses a result below zero, and otherwise upserts that one row. */
  method UpdateStock(db: Database, product: ProductId, location: LocationId, change: int) returns (r: Result<Change>)
    modifies db`stock
    ensures r == StockUpdate(old(db.stock), StockKey(product, location), change)
    ensures r.Ok? ==> db.stock == old(db.stock)[StockKey(product, location) := r.value.after]
    ensures r.Err? ==> db.stock == old(db.stock)
  {
    var key := StockKey(product, location);
    var current := if key in db.stock then db.stock[key] else 0;
    var updated := current + change;
    if updated < 0 {
      return Err(InsufficientStock);
    }
    db.stock := db.stock[key := updated];
    return Ok(Change(current, updated));
  }

  /** addLedgerEntry: appends one entry and touches nothing else. */
  method AddLedgerEntry(db: Database, product: ProductId, location: LocationId, movement: Movement, ref: Reference,
                        change: int, before: int, after: int, user: UserId, note: Note)
    modifies db`ledger
    ensures db.ledger == old(db.ledger) + [LedgerEntry(StockKey(product, location), movement, ref, change, before, after, note, user)]
  {
    db.ledger := db.ledger + [LedgerEntry(StockKey(product, location), movement, ref, change, before, after, note, user)];
  }

  /** processReceipt: per line, in order, add the quantity and record one
      'receipt' entry. */
  method ProcessReceipt(db: Database, receiptId: DocId, items: seq<LineItem>, user: UserId) returns (r: Result<()>)
    modifies db`stock, db`ledger
    ensures var run := Run(db.committed.stock, old(db.stock), ReceiptLegs(receiptId, items), user);
      && (run.Ok? ==> r.Ok? && db.stock == run.value.stock && db.ledger == old(db.ledger) + run.value.entries)
      && (run.Err? ==> r == Err(run.error))
  {
    ghost var legs := ReceiptLegs(receiptId, items);
    ghost var acc := Applied(db.stock, []);
    var i := 0;
    while i < |items|
      invariant 0 <= i <= |items|
      invariant Run(db.committed.stock, old(db.stock), legs[..i], user) == Ok(acc)
      invariant db.stock == acc.stock && db.ledger == old(db.ledger) + acc.entries
    {
      var item := items[i];
      assert legs[..i + 1] == legs[..i] + [legs[i]];
      var u := UpdateStock(db, item.product, item.location, item.quantity);
      if u.Err? {
        RunSnoc(db.committed.stock, old(db.stock), legs[..i], legs[i], user);
        RunFailurePersists(db.committed.stock, old(db.stock), legs, i + 1, user);
        return Err(u.error);
      }
      AddLedgerEntry(db, item.product, item.location, MoveReceipt, Reference(RefReceipt, receiptId),
                     item.quantity, u.value.before, u.value.after, user, ReceiptNote(receiptId));
      RunExtends(db.committed.stock, old(db.stock), legs[..i], legs[i], user, acc, u.value);
      acc := Applied(db.stock, acc.entries + [Record(legs[i], u.value, user)]);
      i := i + 1;
    }
    assert legs[..i] == legs;
    return Ok(());
  }

  /** processDelivery: per line, in order, check the committed stock at the
      line's location, subtract the quantity and record one 'delivery' entry. */
  method ProcessDelivery(db: Database, deliveryId: DocId, items: seq<LineItem>, user: UserId) returns (r: Result<()>)
    modifies db`stock, db`ledger
    ensures var run := Run(db.committed.stock, old(db.stock), DeliveryLegs(deliveryId, items), user);
      && (run.Ok? ==> r.Ok? && db.stock == run.value.stock && db.ledger == old(db.ledger) + run.value.entries)
      && (run.Err? ==> r == Err(run.error))
  {
    ghost var legs := DeliveryLegs(deliveryId, items);
    ghost var acc := Applied(db.stock, []);
    var i := 0;
    while i < |items|
      invariant 0 <= i <= |items|
      invariant Run(db.committed.stock, old(db.stock), legs[..i], user) == Ok(acc)
      invariant db.stock == acc.stock && db.ledger == old(db.ledger) + acc.entries
    {
      assert legs[..i + 1] == legs[..i] + [legs[i]];
      var moved, acc' := DeliveryLine(db, deliveryId, items[i], user, old(db.stock), legs[..i], acc, old(db.ledger));
      if moved.Err? {
        RunFailurePersists(db.committed.stock, old(db.stock), legs, i + 1, user);
        return moved;
      }
      acc := acc';
      i := i + 1;
    }
    assert legs[..i] == legs;
    return Ok(());
  }

  /** One line of processDelivery: the pre-check, the decrease and its entry. */
  method DeliveryLine(db: Database, deliveryId: DocId, item: LineItem, user: UserId,
                      ghost stock: map<StockKey, int>, ghost done: seq<Leg>, ghost acc: Applied, ghost base: seq<LedgerEntry>)
    returns (r: Result<()>, ghost acc': Applied)
    requires Run(db.committed.stock, stock, done, user) == Ok(acc)
    requires db.stock == acc.stock && db.ledger == base + acc.entries
    modifies db`stock, db`ledger
    ensures var run := Run(db.committed.stock, stock, done + [DeliveryLeg(deliveryId, item)], user);
      && (run.Ok? ==> r.Ok? && run.value == acc' && db.stock == acc'.stock && db.ledger == base + acc'.entries)
      && (run.Err? ==> r == Err(run.error))
  {
    ghost var leg := DeliveryLeg(deliveryId, item);
    RunSnoc(db.committed.stock, stock, done, leg, user);
    var current := GetStock(db, item.product, item.location);
    if current < item.quantity {
      return Err(ShortAtLocation(item.product, item.location)), acc;
    }
    var u := UpdateStock(db, item.product, item.location, -item.quantity);
    if u.Err? {
      return Err(u.error), acc;
    }
    AddLedgerEntry(db, item.product, item.location, MoveDelivery, Reference(RefDelivery, deliveryId),
                   -item.quantity, u.value.before, u.value.after, user, DeliveryNote(deliveryId));
    RunExtends(db.committed.stock, stock, done, leg, user, acc, u.value);
    acc' := Applied(db.stock, acc.entries + [Record(leg, u.value, user)]);
    assert db.ledger == base + acc'.entries;
    return Ok(()), acc';
  }

  /** processTransfer: per line, in order, check the committed stock at the
      source, then move the quantity out of the source ('transfer_out') and
      into the destination ('transfer_in'), one entry for each. */
  method ProcessTransfer(db: Database, transferId: DocId, items: seq<TransferItem>, user: UserId) returns (r: Result<()>)
    modifies db`stock, db`ledger
    ensures var run := Run(db.committed.stock, old(db.stock), TransferLegs(transferId, items), user);
      && (run.Ok? ==> r.Ok? && db.stock == run.value.stock && db.ledger == old(db.ledger) + run.value.entries)
      && (run.Err? ==> r == Err(run.error))
  {
    ghost var acc := Applied(db.stock, []);
    var i := 0;
    while i < |items|
      invariant 0 <= i <= |items|
      invariant Run(db.committed.stock, old(db.stock), TransferLegs(transferId, items[..i]), user) == Ok(acc)
      invariant db.stock == acc.stock && db.ledger == old(db.ledger) + acc.entries
    {
      TransferLegsSnoc(transferId, items, i);
      var moved, acc' := TransferLine(db, transferId, items[i], user, old(db.stock), TransferLegs(transferId, items[..i]), acc, old(db.ledger));
      if moved.Err? {
        TransferFailurePersists(db.committed.stock, old(db.stock), transferId, items, i + 1, user);
        return moved;
      }
      acc := acc';
      i := i + 1;
    }
    assert items[..i] == items;
    return Ok(());
  }

  /** One line of processTransfer: the pre-check at the source, the
      decrease there and its entry, then the increase at the destination
      and its entry. */
  method TransferLine(db: Database, transferId: DocId, item: TransferItem, user: UserId,
                      ghost stock: map<StockKey, int>, ghost done: seq<Leg>, ghost acc: Applied, ghost base: seq<LedgerEntry>)
    returns (r: Result<()>, ghost acc': Applied)
    requires Run(db.committed.stock, stock, done, user) == Ok(acc)
    requires db.stock == acc.stock && db.ledger == base + acc.entries
    modifies db`stock, db`ledger
    ensures var run := Run(db.committed.stock, stock, done + [TransferOutLeg(transferId, item)] + [TransferInLeg(transferId, item)], user);
      && (run.Ok? ==> r.Ok? && run.value == acc' && db.stock == acc'.stock && db.ledger == base + acc'.entries)
      && (run.Err? ==> r == Err(run.error))
  {
    ghost var out, into := TransferOutLeg(transferId, item), TransferInLeg(transferId, item);
    RunSnoc(db.committed.stock, stock, done, out, user);
    RunSnoc(db.committed.stock, stock, done + [out], into, user);
    var current := GetStock(db, item.product, item.from);
    if current < item.quantity {
      return Err(ShortAtSource(item.product)), acc;
    }
    var u := UpdateStock(db, item.product, item.from, -item.quantity);
    if u.Err? {
      return Err(u.error), acc;
    }
    AddLedgerEntry(db, item.product, item.from, MoveTransferOut, Reference(RefTransfer, transferId),
                   -item.quantity, u.value.before, u.value.after, user, TransferOutNote(transferId));
    RunExtends(db.committed.stock, stock, done, out, user, acc, u.value);
    acc' := Applied(db.stock, acc.entries + [Record(out, u.value, user)]);
    assert db.ledger == base + acc'.entries;
    var v := UpdateStock(db, item.product, item.to, item.quantity);
    if v.Err? {
      return Err(v.error), acc';
    }
    AddLedgerEntry(db, item.product, item.to, MoveTransferIn, Reference(RefTransfer, transferId),
                   item.quantity, v.value.before, v.value.after, user, TransferInNote(transferId));
    RunExtends(db.committed.stock, stock, done + [out], into, user, acc', v.value);
    acc' := Applied(db.stock, acc'.entries + [Record(into, v.value, user)]);
    assert db.ledger == base + acc'.entries;
    return Ok(()), acc';
  }

  /** processAdjustment: add the quantity for type 'increase', subtract it
      for any other type, and record one 'adjustment' entry noted with the reason. */
  method ProcessAdjustment(db: Database, adjustmentId: DocId, adjustment: Adjustment, user: UserId) returns (r: Result<()>)
    modifies db`stock, db`ledger
    ensures var run := Run(db.committed.stock, old(db.stock), [AdjustmentLeg(adjustmentId, adjustment)], user);
      && (run.Ok? ==> r.Ok? && db.stock == run.value.stock && db.ledger == old(db.ledger) + run.value.entries)
      && (run.Err? ==> r == Err(run.error))
  {
    var change := if adjustment.adjustmentType == "increase" then adjustment.quantity else -adjustment.quantity;
    RunSnoc(db.committed.stock, old(db.stock), [], AdjustmentLeg(adjustmentId, adjustment), user);
    var u := UpdateStock(db, adjustment.product, adjustment.location, change);
    if u.Err? {
      return Err(u.error);
    }
    AddLedgerEntry(db, adjustment.product, adjustment.location, MoveAdjustment, Reference(RefStockAdjustment, adjustmentId),
                   change, u.value.before, u.value.after, user, Reason(adjustment.reason));
    return Ok(());
  }
}
