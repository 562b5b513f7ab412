/** The adjustment controller: an adjustment has no draft stage; its record
    is inserted and applied to stock in one transaction. */
module Adjustments {
  import opened Inventory
  import opened Ledger
  import opened Movements
  import opened Integrity
  import opened Db
  import StockService

  /** The constraints the request schema puts on an adjustment. */
  predicate WellFormed(adjustmentType: string, quantity: int)
  {
    (adjustmentType == "increase" || adjustmentType == "decrease") && quantity > 0
  }

  /** createAdjustment as a transition: the record, adjusted by the acting
      user, is inserted under the fresh id (refused when its product or
      location does not exist) and applied as one leg; any failure leaves
      every table as it was, the record included. */
  function Creation(t: Tables, id: DocId, product: ProductId, location: LocationId, adjustmentType: string,
                    quantity: int, reason: string, user: UserId): (r: Transition<DocId>)
    requires id !in t.adjustments
    ensures r.result.Err? ==> r.tables == t
    ensures r.result.Ok? ==> r.result.value == id
    ensures r.result.Ok? ==> r.tables.adjustments == t.adjustments[id := Adjustment(product, location, adjustmentType, quantity, reason, user)]
  {
    var adjustment := Adjustment(product, location, adjustmentType, quantity, reason, user);
    if product !in t.products || location !in t.locations then Transition(Err(MissingReference), t)
    else
      match Run(t.stock, t.stock, [AdjustmentLeg(id, adjustment)], user)
      case Err(e) => Transition(Err(e), t)
      case Ok(a) =>
        Transition(Ok(id), t.(stock := a.stock, ledger := t.ledger + a.entries, adjustments := t.adjustments[id := adjustment]))
  }

  /** createAdjustment: insert the record, apply it, commit; roll back
      (the record with it) when either step fails. */
  method CreateAdjustment(db: Database, id: DocId, product: ProductId, location: LocationId, adjustmentType: string,
                          quantity: int, reason: string, user: UserId) returns (r: Result<DocId>)
    requires db.Valid() && db.Idle()
    requires id !in db.adjustments
    requires WellFormed(adjustmentType, quantity)
    modifies db
    ensures db.Valid() && db.Idle()
    ensures Transition(r, db.Current()) == Creation(old(db.Current()), id, product, location, adjustmentType, quantity, reason, user)
  {
    if product !in db.products || location !in db.locations {
      db.Rollback();
      return Err(MissingReference);
    }
    var adjustment := Adjustment(product, location, adjustmentType, quantity, reason, user);
    db.adjustments := db.adjustments[id := adjustment];
    var processed := StockService.ProcessAdjustment(db, id, adjustment, user);
    if processed.Err? {
      db.Rollback();
      return Err(processed.error);
    }
    ghost var t := old(db.Current());
    ghost var a := Run(t.stock, t.stock, [AdjustmentLeg(id, adjustment)], user).value;
    assert db.Current() == t.(stock := a.stock, ledger := t.ledger + a.entries, adjustments := t.adjustments[id := adjustment]);
    CreationKeepsConsistent(t, id, product, location, adjustmentType, quantity, reason, user);
    db.Commit();
    return Ok(id);
  }

  // ---------------------------------------------------------------------
  // What the transition promises

  /** A successful adjustment left exactly one record and exactly one
      ledger entry: an 'adjustment' movement referring to the record, with
      the signed quantity, noted with the reason, and recorded by the same
      user the record names as adjusting it; only that stock row changed. */
  lemma CreationEffect(t: Tables, id: DocId, product: ProductId, location: LocationId, adjustmentType: string,
                       quantity: int, reason: string, user: UserId)
    requires id !in t.adjustments
    requires Creation(t, id, product, location, adjustmentType, quantity, reason, user).result.Ok?
    ensures var t' := Creation(t, id, product, location, adjustmentType, quantity, reason, user).tables;
      var key := StockKey(product, location);
      var change := if adjustmentType == "increase" then quantity else -quantity;
      && |t'.ledger| == |t.ledger| + 1 && t'.ledger[..|t.ledger|] == t.ledger
      && var e := t'.ledger[|t.ledger|];
      && e.key == key && e.movement == MoveAdjustment && e.ref == Reference(RefStockAdjustment, id)
      && e.change == change && e.note == Reason(reason)
      && e.user == user && t'.adjustments[id].adjustedBy == user
      && e.before == Get(t.stock, key) && e.after == e.before + change && e.after >= 0
      && t'.stock == t.stock[key := e.after]
  {
    var adjustment := Adjustment(product, location, adjustmentType, quantity, reason, user);
    RunSnoc(t.stock, t.stock, [], AdjustmentLeg(id, adjustment), user);
  }

  /** A decrease by more than the row holds fails inside the stock update,
      and the rollback removes the record as well. */
  lemma OverdrawnDecreaseFails(t: Tables, id: DocId, product: ProductId, location: LocationId,
                               quantity: int, reason: string, user: UserId)
    requires id !in t.adjustments
    requires product in t.products && location in t.locations
    requires Get(t.stock, StockKey(product, location)) < quantity
    ensures Creation(t, id, product, location, "decrease", quantity, reason, user) == Transition(Err(InsufficientStock), t)
    ensures id !in Creation(t, id, product, location, "decrease", quantity, reason, user).tables.adjustments
  {
    var adjustment := Adjustment(product, location, "decrease", quantity, reason, user);
    RunSnoc(t.stock, t.stock, [], AdjustmentLeg(id, adjustment), user);
  }

  /** Creating an adjustment keeps the tables consistent: its one entry is
      chained and referenced by the new record, and the ledger still sums
      to the stock. */
  lemma CreationKeepsConsistent(t: Tables, id: DocId, product: ProductId, location: LocationId, adjustmentType: string,
                                quantity: int, reason: string, user: UserId)
    requires Consistent(t) && id !in t.adjustments
    ensures Consistent(Creation(t, id, product, location, adjustmentType, quantity, reason, user).tables)
  {
    var r := Creation(t, id, product, location, adjustmentType, quantity, reason, user);
    if r.result.Ok? {
      var adjustment := Adjustment(product, location, adjustmentType, quantity, reason, user);
      var legs := [AdjustmentLeg(id, adjustment)];
      RunFacts(t.stock, t.stock, legs, user);
      RunKeepsLedger(t.stock, t.stock, t.ledger, legs, user);
      var a := Run(t.stock, t.stock, legs, user).value;
      assert Records(legs[0], user, a.entries[0]);
      AppliedTraceable(t, id, adjustment, a.stock, a.entries);
      AppliedReferenced(t, id, adjustment, a.stock, a.entries);
    }
  }

  /** Recording an applied adjustment and its one entry keeps every count right. */
  lemma AppliedTraceable(t: Tables, id: DocId, adjustment: Adjustment, stock: map<StockKey, int>, e: seq<LedgerEntry>)
    requires Traceable(t) && id !in t.adjustments
    requires |e| == 1 && e[0].ref == Reference(RefStockAdjustment, id)
    ensures Traceable(t.(stock := stock, ledger := t.ledger + e, adjustments := t.adjustments[id := adjustment]))
  {
    var ref := Reference(RefStockAdjustment, id);
    var t' := t.(stock := stock, ledger := t.ledger + e, adjustments := t.adjustments[id := adjustment]);
    forall i | 0 <= i < |t.ledger|
      ensures t.ledger[i].ref != ref
    {
      assert Documented(t, t.ledger[i]);
    }
    CountRefAbsent(t.ledger, ref);
    OtherDocsTraced(t.receipts, t.ledger, e, RefReceipt, 1, ref);
    OtherDocsTraced(t.deliveries, t.ledger, e, RefDelivery, 1, ref);
    OtherDocsTraced(t.transfers, t.ledger, e, RefTransfer, 2, ref);
    CountAfterAppend(t.ledger, e, ref);
    forall i | 0 <= i < |t'.ledger|
      ensures Documented(t', t'.ledger[i])
    {
      if i < |t.ledger| {
        assert Documented(t, t.ledger[i]);
      }
    }
  }

  /** The record and its entry name an existing product. */
  lemma AppliedReferenced(t: Tables, id: DocId, adjustment: Adjustment, stock: map<StockKey, int>, e: seq<LedgerEntry>)
    requires ProductsReferenced(t)
    requires adjustment.product in t.products
    requires forall i :: 0 <= i < |e| ==> e[i].key.product in t.products
    ensures ProductsReferenced(t.(stock := stock, ledger := t.ledger + e, adjustments := t.adjustments[id := adjustment]))
  {
    var t' := t.(stock := stock, ledger := t.ledger + e, adjustments := t.adjustments[id := adjustment]);
    forall i | 0 <= i < |t'.ledger|
      ensures t'.ledger[i].key.product in t'.products
    {
      if i >= |t.ledger| {
        assert t'.ledger[i] == e[i - |t.ledger|];
      }
    }
  }
}
