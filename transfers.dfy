/** The transfer controller: a transfer is created as a draft with its
    lines, and validating a draft moves each line's quantity out of its
    source location (checked against the committed stock) and into its
    destination, records a 'transfer_out' and a 'transfer_in' entry per line
    and marks it validated, all in one transaction. */
module Transfers {
  import opened Inventory
  import opened Ledger
  import opened Movements
  import opened Integrity
  import opened Db
  import StockService

  /** createTransfer as a transition: a draft transfer with exactly the given
      lines under the fresh id, or, when a line's insert violates a foreign
      key, the tables as they were. */
  function Creation(t: Tables, id: DocId, items: seq<TransferItem>, user: UserId): (r: Transition<DocId>)
    requires id !in t.transfers
    ensures r.result.Err? ==> r.tables == t
    ensures r.result.Ok? ==> r.result.value == id && r.tables.transfers == t.transfers[id := Document(Draft, user, None, items)]
  {
    if TransferLinesExist(t, items) then Transition(Ok(id), t.(transfers := t.transfers[id := Document(Draft, user, None, items)]))
    else Transition(Err(MissingReference), t)
  }

  /** validateTransfer as a transition: not found, already validated and
      cancelled transfers are refused; a draft is processed against the
      stock as committed and then marked validated by the user; any failure,
      on any leg of any line, leaves every table as it was. */
  function Validation(t: Tables, id: DocId, user: UserId): (r: Transition<()>)
    ensures r.result.Err? ==> r.tables == t
    ensures r.result.Ok? ==> id in t.transfers && t.transfers[id].status == Draft
    ensures r.result.Ok? ==> r.tables.transfers == t.transfers[id := t.transfers[id].(status := Validated, validatedBy := Some(user))]
    ensures id !in t.transfers ==> r.result == Err(NotFound)
    ensures id in t.transfers && t.transfers[id].status == Validated ==> r.result == Err(AlreadyValidated)
    ensures id in t.transfers && t.transfers[id].status == Cancelled ==> r.result == Err(CancelledDocument)
    ensures id in t.transfers && t.transfers[id].status == Draft ==>
      var run := Run(t.stock, t.stock, TransferLegs(id, t.transfers[id].items), user);
      (r.result.Ok? <==> run.Ok?) && (run.Err? ==> r.result == Err(run.error))
  {
    if id !in t.transfers then Transition(Err(NotFound), t)
    else
      var doc := t.transfers[id];
      if doc.status == Validated then Transition(Err(AlreadyValidated), t)
      else if doc.status == Cancelled then Transition(Err(CancelledDocument), t)
      else
        assert doc.status == Draft;
        match Run(t.stock, t.stock, TransferLegs(id, doc.items), user)
        case Err(e) => Transition(Err(e), t)
        case Ok(a) =>
          Transition(Ok(()), t.(stock := a.stock, ledger := t.ledger + a.entries,
                                transfers := t.transfers[id := doc.(status := Validated, validatedBy := Some(user))]))
  }

  /** getTransferById: the transfer with its lines, or none. */
  method GetTransferById(db: Database, id: DocId) returns (r: Option<Document<TransferItem>>)
    ensures r.Some? <==> id in db.transfers
    ensures r.Some? ==> r.value == db.transfers[id]
  {
    if id in db.transfers {
      return Some(db.transfers[id]);
    }
    return None;
  }

  /** createTransfer: insert the draft, then one item row per line in order;
      a row that violates a foreign key rolls the whole transfer back. */
  method CreateTransfer(db: Database, id: DocId, items: seq<TransferItem>, user: UserId) returns (r: Result<DocId>)
    requires db.Valid() && db.Idle()
    requires id !in db.transfers
    requires |items| > 0 && PositiveTransferLines(items)
    modifies db
    ensures db.Valid() && db.Idle()
    ensures Transition(r, db.Current()) == Creation(old(db.Current()), id, items, user)
  {
    db.transfers := db.transfers[id := Document(Draft, user, None, [])];
    var inserted := InsertLines(db, id, items);
    if !inserted {
      db.Rollback();
      return Err(MissingReference);
    }
    assert [] + items == items;
    assert db.Current() == old(db.Current()).(transfers := old(db.transfers)[id := Document(Draft, user, None, items)]);
    CreationKeepsConsistent(old(db.Current()), id, items, user);
    db.Commit();
    return Ok(id);
  }

  /** The item-row inserts: one row per line, in order, stopping at the
      first line whose product or location does not exist. */
  method InsertLines(db: Database, id: DocId, items: seq<TransferItem>) returns (inserted: bool)
    requires id in db.transfers
    modifies db`transfers
    ensures inserted == TransferLinesExist(db.Current(), items)
    ensures inserted ==> db.transfers == old(db.transfers)[id := old(db.transfers)[id].(items := old(db.transfers)[id].items + items)]
  {
    ghost var prior := db.transfers[id];
    assert prior.items + items[..0] == prior.items;
    var i := 0;
    while i < |items|
      invariant 0 <= i <= |items|
      invariant db.transfers == old(db.transfers)[id := prior.(items := prior.items + items[..i])]
      invariant forall j :: 0 <= j < i ==> items[j].product in db.products && items[j].from in db.locations && items[j].to in db.locations
    {
      var item := items[i];
      if item.product !in db.products || item.from !in db.locations || item.to !in db.locations {
        return false;
      }
      db.transfers := db.transfers[id := db.transfers[id].(items := db.transfers[id].items + [item])];
      assert prior.items + items[..i + 1] == prior.items + items[..i] + [item];
      i := i + 1;
    }
    assert items[..i] == items;
    return true;
  }

  /** validateTransfer: look the transfer up, refuse it unless it is a draft,
      process its lines, mark it validated and commit; roll back when the
      processing fails. */
  method ValidateTransfer(db: Database, id: DocId, user: UserId) returns (r: Result<()>)
    requires db.Valid() && db.Idle()
    modifies db
    ensures db.Valid() && db.Idle()
    ensures Transition(r, db.Current()) == Validation(old(db.Current()), id, user)
  {
    var transfer := GetTransferById(db, id);
    if transfer.None? {
      return Err(NotFound);
    }
    var doc := transfer.value;
    if doc.status == Validated {
      return Err(AlreadyValidated);
    }
    if doc.status == Cancelled {
      return Err(CancelledDocument);
    }
    var processed := StockService.ProcessTransfer(db, id, doc.items, user);
    if processed.Err? {
      db.Rollback();
      return Err(processed.error);
    }
    db.transfers := db.transfers[id := doc.(status := Validated, validatedBy := Some(user))];
    ghost var t := old(db.Current());
    ghost var a := Run(t.stock, t.stock, TransferLegs(id, doc.items), user).value;
    assert db.Current() == t.(stock := a.stock, ledger := t.ledger + a.entries,
                              transfers := t.transfers[id := doc.(status := Validated, validatedBy := Some(user))]);
    ValidationKeepsConsistent(t, id, user);
    db.Commit();
    return Ok(());
  }

  // ---------------------------------------------------------------------
  // What the transitions promise

  /** Creating a draft under a fresh id keeps the tables consistent. */
  lemma CreationKeepsConsistent(t: Tables, id: DocId, items: seq<TransferItem>, user: UserId)
    requires Consistent(t) && id !in t.transfers
    ensures Consistent(Creation(t, id, items, user).tables)
  {
    var r := Creation(t, id, items, user);
    if r.result.Ok? {
      forall i | 0 <= i < |t.ledger|
        ensures t.ledger[i].ref != Reference(RefTransfer, id)
      {
        assert Documented(t, t.ledger[i]);
      }
      NewDraftTraced(t, t.transfers, RefTransfer, 2, id, Document(Draft, user, None, items));
      assert TransferLinesKnown(items, t.products);
    }
  }

  /** What a successful validation did: every line's source held enough
      committed stock; per line, in order, a 'transfer_out' entry at the
      source with the negated quantity and then a 'transfer_in' entry at the
      destination with the quantity, both referring to the transfer; every
      row moved by exactly what its new entries record, so each product's
      total over all locations is unchanged; and the other tables are
      untouched. */
  lemma ValidationEffect(t: Tables, id: DocId, user: UserId, product: ProductId)
    requires Validation(t, id, user).result.Ok?
    ensures var t' := Validation(t, id, user).tables;
      var items := t.transfers[id].items;
      var e := t'.ledger[|t.ledger|..];
      && t'.ledger == t.ledger + e
      && |e| == 2 * |items|
      && (forall i :: 0 <= i < |items| ==> Get(t.stock, StockKey(items[i].product, items[i].from)) >= items[i].quantity)
      && (forall i :: 0 <= i < |items| ==>
            && e[2 * i].key == StockKey(items[i].product, items[i].from)
            && e[2 * i].movement == MoveTransferOut && e[2 * i].change == -items[i].quantity
            && e[2 * i + 1].key == StockKey(items[i].product, items[i].to)
            && e[2 * i + 1].movement == MoveTransferIn && e[2 * i + 1].change == items[i].quantity
            && e[2 * i].ref == e[2 * i + 1].ref == Reference(RefTransfer, id))
      && (forall k :: Get(t'.stock, k) == Get(t.stock, k) + NetChange(e, k))
      && ProductChange(e, product) == 0
      && t'.products == t.products && t'.receipts == t.receipts
      && t'.deliveries == t.deliveries && t'.adjustments == t.adjustments
  {
    var items := t.transfers[id].items;
    var legs := TransferLegs(id, items);
    RunFacts(t.stock, t.stock, legs, user);
    TransferBalances(t.stock, t.stock, id, items, user, product);
    RunPassedGuards(t.stock, t.stock, legs, user);
    var a := Run(t.stock, t.stock, legs, user).value;
    var t' := Validation(t, id, user).tables;
    assert t'.ledger[|t.ledger|..] == a.entries;
    forall i | 0 <= i < |items|
      ensures Get(t.stock, StockKey(items[i].product, items[i].from)) >= items[i].quantity
    {
      assert legs[2 * i] == TransferOutLeg(id, items[i]);
    }
  }

  /** All or nothing: when any line's source lacks committed stock,
      validation fails and every leg of every line, and the status, is
      rolled back. */
  lemma ShortSourceRollsBack(t: Tables, id: DocId, user: UserId, i: nat)
    requires id in t.transfers && t.transfers[id].status == Draft
    requires i < |t.transfers[id].items|
    requires var item := t.transfers[id].items[i]; Get(t.stock, StockKey(item.product, item.from)) < item.quantity
    ensures Validation(t, id, user).result.Err? && Validation(t, id, user).tables == t
  {
    TransferShortSourceFails(t.stock, t.stock, id, t.transfers[id].items, i, user);
  }

  /** Lines of one transfer do not feed each other: moving a quantity from
      a to b and then on from b to c is refused when b held less than that
      quantity before the transfer, although line 1 would have put it there,
      because the pre-check reads the committed stock. */
  lemma ChainedLinesRefused(t: Tables, id: DocId, user: UserId, product: ProductId, a: LocationId, b: LocationId,
                            c: LocationId, q: int)
    requires NonNegative(t.stock) && q > 0
    requires id in t.transfers && t.transfers[id].status == Draft
    requires t.transfers[id].items == [TransferItem(product, a, b, q), TransferItem(product, b, c, q)]
    requires Get(t.stock, StockKey(product, a)) >= q && Get(t.stock, StockKey(product, b)) < q
    ensures Validation(t, id, user) == Transition(Err(ShortAtSource(product)), t)
  {
    var first := TransferItem(product, a, b, q);
    var items := t.transfers[id].items;
    assert items[..1] == [first];
    assert TransferLegs(id, [first]) == [] + [TransferOutLeg(id, first), TransferInLeg(id, first)];
    assert [] + [TransferOutLeg(id, first), TransferInLeg(id, first)] == [TransferOutLeg(id, first)] + [TransferInLeg(id, first)];
    RunSnoc(t.stock, t.stock, [], TransferOutLeg(id, first), user);
    RunSnoc(t.stock, t.stock, [TransferOutLeg(id, first)], TransferInLeg(id, first), user);
    TransferShortSourceFails(t.stock, t.stock, id, items, 1, user);
  }

  /** Validating a transfer twice moves its lines once: the second attempt
      is refused as already validated and changes nothing, and the transfer
      has exactly two entries per line. */
  lemma ValidatedOnce(t: Tables, id: DocId, first: UserId, second: UserId)
    requires Consistent(t)
    requires Validation(t, id, first).result.Ok?
    ensures var t' := Validation(t, id, first).tables;
      && Validation(t', id, second) == Transition(Err(AlreadyValidated), t')
      && CountRef(t'.ledger, Reference(RefTransfer, id)) == 2 * |t.transfers[id].items|
  {
    ValidationKeepsConsistent(t, id, first);
  }

  /** Validation keeps the tables consistent: the ledger stays chained and
      sums to the stock, each validated transfer has two entries per line, and
      every entry refers to an existing product and its causing document. */
  lemma ValidationKeepsConsistent(t: Tables, id: DocId, user: UserId)
    requires Consistent(t)
    ensures Consistent(Validation(t, id, user).tables)
  {
    var r := Validation(t, id, user);
    if r.result.Ok? {
      var doc := t.transfers[id];
      var a := Run(t.stock, t.stock, TransferLegs(id, doc.items), user).value;
      DraftValidationConsistent(t, id, user, a);
    }
  }

  lemma DraftValidationConsistent(t: Tables, id: DocId, user: UserId, a: Applied)
    requires Consistent(t)
    requires id in t.transfers && t.transfers[id].status == Draft
    requires Run(t.stock, t.stock, TransferLegs(id, t.transfers[id].items), user) == Ok(a)
    ensures Consistent(t.(stock := a.stock, ledger := t.ledger + a.entries,
                          transfers := t.transfers[id := t.transfers[id].(status := Validated, validatedBy := Some(user))]))
  {
    var doc := t.transfers[id];
    var legs := TransferLegs(id, doc.items);
    RunFacts(t.stock, t.stock, legs, user);
    RunKeepsLedger(t.stock, t.stock, t.ledger, legs, user);
    var e := a.entries;
    forall i | 0 <= i < |e|
      ensures e[i].ref == Reference(RefTransfer, id) && e[i].key.product in t.products
    {
      var j := i / 2;
      assert Records(legs[i], user, e[i]);
      assert TransferLinesKnown(doc.items, t.products);
      if i % 2 == 0 {
        assert i == 2 * j;
        assert legs[i] == TransferOutLeg(id, doc.items[j]);
      } else {
        assert i == 2 * j + 1;
        assert legs[i] == TransferInLeg(id, doc.items[j]);
      }
    }
    ValidatedTraceable(t, id, user, a.stock, e);
    ValidatedReferenced(t, id, user, a.stock, e);
  }

  /** Appending the entries of a validated draft keeps every count right. */
  lemma ValidatedTraceable(t: Tables, id: DocId, user: UserId, stock: map<StockKey, int>, e: seq<LedgerEntry>)
    requires Traceable(t)
    requires id in t.transfers && t.transfers[id].status == Draft
    requires |e| == 2 * |t.transfers[id].items|
    requires forall i :: 0 <= i < |e| ==> e[i].ref == Reference(RefTransfer, id)
    ensures Traceable(t.(stock := stock, ledger := t.ledger + e,
                         transfers := t.transfers[id := t.transfers[id].(status := Validated, validatedBy := Some(user))]))
  {
    var t' := t.(stock := stock, ledger := t.ledger + e,
                 transfers := t.transfers[id := t.transfers[id].(status := Validated, validatedBy := Some(user))]);
    ValidatedDocTraced(t.transfers, t.ledger, e, RefTransfer, 2, id, user);
    OtherDocsTraced(t.receipts, t.ledger, e, RefReceipt, 1, Reference(RefTransfer, id));
    OtherDocsTraced(t.deliveries, t.ledger, e, RefDelivery, 1, Reference(RefTransfer, id));
    CountAfterAppend(t.ledger, e, Reference(RefTransfer, id));
    forall i | 0 <= i < |t'.ledger|
      ensures Documented(t', t'.ledger[i])
    {
      if i < |t.ledger| {
        assert Documented(t, t.ledger[i]);
      }
    }
  }

  /** Appending entries of known products keeps the foreign keys. */
  lemma ValidatedReferenced(t: Tables, id: DocId, user: UserId, stock: map<StockKey, int>, e: seq<LedgerEntry>)
    requires ProductsReferenced(t)
    requires id in t.transfers
    requires forall i :: 0 <= i < |e| ==> e[i].key.product in t.products
    ensures ProductsReferenced(t.(stock := stock, ledger := t.ledger + e,
                                  transfers := t.transfers[id := t.transfers[id].(status := Validated, validatedBy := Some(user))]))
  {
    var t' := t.(stock := stock, ledger := t.ledger + e,
                 transfers := t.transfers[id := t.transfers[id].(status := Validated, validatedBy := Some(user))]);
    forall i | 0 <= i < |t'.ledger|
      ensures t'.ledger[i].key.product in t'.products
    {
      if i >= |t.ledger| {
        assert t'.ledger[i] == e[i - |t.ledger|];
      }
    }
  }
}
