/** The receipt controller: a receipt is created as a draft with its lines,
    and validating a draft adds every line's quantity to stock, records one
    'receipt' entry per line and marks it validated, all in one transaction. */
module Receipts {
  import opened Inventory
  import opened Ledger
  import opened Movements
  import opened Integrity
  import opened Db
  import StockService

  /** createReceipt as a transition: a draft receipt with exactly the given
      lines under the fresh id, or, when a line's insert violates a foreign
      key, the tables as they were. */
  function Creation(t: Tables, id: DocId, items: seq<LineItem>, user: UserId): (r: Transition<DocId>)
    requires id !in t.receipts
    ensures r.result.Err? ==> r.tables == t
    ensures r.result.Ok? ==> r.result.value == id && r.tables.receipts == t.receipts[id := Document(Draft, user, None, items)]
  {
    if LinesExist(t, items) then Transition(Ok(id), t.(receipts := t.receipts[id := Document(Draft, user, None, items)]))
    else Transition(Err(MissingReference), t)
  }

  /** validateReceipt as a transition: not found, already validated and
      cancelled receipts are refused; a draft is processed against the
      stock as committed and then marked validated by the user; any failure
      leaves every table as it was. */
  function Validation(t: Tables, id: DocId, user: UserId): (r: Transition<()>)
    ensures r.result.Err? ==> r.tables == t
    ensures r.result.Ok? ==> id in t.receipts && t.receipts[id].status == Draft
    ensures r.result.Ok? ==> r.tables.receipts == t.receipts[id := t.receipts[id].(status := Validated, validatedBy := Some(user))]
    ensures id !in t.receipts ==> r.result == Err(NotFound)
    ensures id in t.receipts && t.receipts[id].status == Validated ==> r.result == Err(AlreadyValidated)
    ensures id in t.receipts && t.receipts[id].status == Cancelled ==> r.result == Err(CancelledDocument)
    ensures id in t.receipts && t.receipts[id].status == Draft ==>
      var run := Run(t.stock, t.stock, ReceiptLegs(id, t.receipts[id].items), user);
      (r.result.Ok? <==> run.Ok?) && (run.Err? ==> r.result == Err(run.error))
  {
    if id !in t.receipts then Transition(Err(NotFound), t)
    else
      var doc := t.receipts[id];
      if doc.status == Validated then Transition(Err(AlreadyValidated), t)
      else if doc.status == Cancelled then Transition(Err(CancelledDocument), t)
      else
        assert doc.status == Draft;
        match Run(t.stock, t.stock, ReceiptLegs(id, doc.items), user)
        case Err(e) => Transition(Err(e), t)
        case Ok(a) =>
          Transition(Ok(()), t.(stock := a.stock, ledger := t.ledger + a.entries,
                                receipts := t.receipts[id := doc.(status := Validated, validatedBy := Some(user))]))
  }

  /** getReceiptById: the receipt with its lines, or none. */
  method GetReceiptById(db: Database, id: DocId) returns (r: Option<Document<LineItem>>)
    ensures r.Some? <==> id in db.receipts
    ensures r.Some? ==> r.value == db.receipts[id]
  {
    if id in db.receipts {
      return Some(db.receipts[id]);
    }
    return None;
  }

  /** createReceipt: insert the draft, then one item row per line in order;
      a row that violates a foreign key rolls the whole receipt back. */
  method CreateReceipt(db: Database, id: DocId, items: seq<LineItem>, user: UserId) returns (r: Result<DocId>)
    requires db.Valid() && db.Idle()
    requires id !in db.receipts
    requires |items| > 0 && PositiveLines(items)
    modifies db
    ensures db.Valid() && db.Idle()
    ensures Transition(r, db.Current()) == Creation(old(db.Current()), id, items, user)
  {
    db.receipts := db.receipts[id := Document(Draft, user, None, [])];
    var inserted := InsertLines(db, id, items);
    if !inserted {
      db.Rollback();
      return Err(MissingReference);
    }
    assert [] + items == items;
    assert db.Current() == old(db.Current()).(receipts := old(db.receipts)[id := Document(Draft, user, None, items)]);
    CreationKeepsConsistent(old(db.Current()), id, items, user);
    db.Commit();
    return Ok(id);
  }

  /** The item-row inserts: one row per line, in order, stopping at the
      first line whose product or location does not exist. */
  method InsertLines(db: Database, id: DocId, items: seq<LineItem>) returns (inserted: bool)
    requires id in db.receipts
    modifies db`receipts
    ensures inserted == LinesExist(db.Current(), items)
    ensures inserted ==> db.receipts == old(db.receipts)[id := old(db.receipts)[id].(items := old(db.receipts)[id].items + items)]
  {
    ghost var prior := db.receipts[id];
    assert prior.items + items[..0] == prior.items;
    var i := 0;
    while i < |items|
      invariant 0 <= i <= |items|
      invariant db.receipts == old(db.receipts)[id := prior.(items := prior.items + items[..i])]
      invariant forall j :: 0 <= j < i ==> items[j].product in db.products && items[j].location in db.locations
    {
      var item := items[i];
      if item.product !in db.products || item.location !in db.locations {
        return false;
      }
      db.receipts := db.receipts[id := db.receipts[id].(items := db.receipts[id].items + [item])];
      assert prior.items + items[..i + 1] == prior.items + items[..i] + [item];
      i := i + 1;
    }
    assert items[..i] == items;
    return true;
  }

  /** validateReceipt: look the receipt up, refuse it unless it is a draft,
      process its lines, mark it validated and commit; roll back when the
      processing fails. */
  method ValidateReceipt(db: Database, id: DocId, user: UserId) returns (r: Result<()>)
    requires db.Valid() && db.Idle()
    modifies db
    ensures db.Valid() && db.Idle()
    ensures Transition(r, db.Current()) == Validation(old(db.Current()), id, user)
  {
    var receipt := GetReceiptById(db, id);
    if receipt.None? {
      return Err(NotFound);
    }
    var doc := receipt.value;
    if doc.status == Validated {
      return Err(AlreadyValidated);
    }
    if doc.status == Cancelled {
      return Err(CancelledDocument);
    }
    var processed := StockService.ProcessReceipt(db, id, doc.items, user);
    if processed.Err? {
      db.Rollback();
      return Err(processed.error);
    }
    db.receipts := db.receipts[id := doc.(status := Validated, validatedBy := Some(user))];
    ghost var t := old(db.Current());
    ghost var a := Run(t.stock, t.stock, ReceiptLegs(id, doc.items), user).value;
    assert db.Current() == t.(stock := a.stock, ledger := t.ledger + a.entries,
                              receipts := t.receipts[id := doc.(status := Validated, validatedBy := Some(user))]);
    ValidationKeepsConsistent(t, id, user);
    db.Commit();
    return Ok(());
  }

  // ---------------------------------------------------------------------
  // What the transitions promise

  /** Creating a draft under a fresh id keeps the tables consistent. */
  lemma CreationKeepsConsistent(t: Tables, id: DocId, items: seq<LineItem>, user: UserId)
    requires Consistent(t) && id !in t.receipts
    ensures Consistent(Creation(t, id, items, user).tables)
  {
    var r := Creation(t, id, items, user);
    if r.result.Ok? {
      forall i | 0 <= i < |t.ledger|
        ensures t.ledger[i].ref != Reference(RefReceipt, id)
      {
        assert Documented(t, t.ledger[i]);
      }
      NewDraftTraced(t, t.receipts, RefReceipt, 1, id, Document(Draft, user, None, items));
      assert LinesKnown(items, t.products);
    }
  }

  /** What a successful validation did: the receipt's lines were added to
      stock in order, one 'receipt' entry each, referring to the receipt,
      recorded by the user and chained from the row's quantity at that point;
      every row moved by exactly what its new entries record; and the other
      tables are untouched. */
  lemma ValidationEffect(t: Tables, id: DocId, user: UserId)
    requires Validation(t, id, user).result.Ok?
    ensures var t' := Validation(t, id, user).tables;
      var items := t.receipts[id].items;
      var e := t'.ledger[|t.ledger|..];
      && t'.ledger == t.ledger + e
      && |e| == |items|
      && (forall i :: 0 <= i < |items| ==>
            && e[i].key == StockKey(items[i].product, items[i].location)
            && e[i].movement == MoveReceipt && e[i].ref == Reference(RefReceipt, id)
            && e[i].change == items[i].quantity && e[i].user == user
            && e[i].after == e[i].before + e[i].change)
      && (forall k :: Get(t'.stock, k) == Get(t.stock, k) + NetChange(e, k))
      && t'.products == t.products && t'.deliveries == t.deliveries
      && t'.transfers == t.transfers && t'.adjustments == t.adjustments
  {
    var items := t.receipts[id].items;
    var legs := ReceiptLegs(id, items);
    RunFacts(t.stock, t.stock, legs, user);
    var a := Run(t.stock, t.stock, legs, user).value;
    var t' := Validation(t, id, user).tables;
    assert t'.ledger[|t.ledger|..] == a.entries;
    forall i | 0 <= i < |items|
      ensures Records(ReceiptLeg(id, items[i]), user, a.entries[i])
    {
      assert Records(legs[i], user, a.entries[i]);
    }
  }

  /** A draft receipt of positive lines always validates when the tables are consistent. */
  lemma DraftValidates(t: Tables, id: DocId, user: UserId)
    requires Consistent(t)
    requires id in t.receipts && t.receipts[id].status == Draft && PositiveLines(t.receipts[id].items)
    ensures Validation(t, id, user).result == Ok(())
  {
    ConsistentNonNegative(t);
    ReceiptRunSucceeds(t.stock, t.stock, id, t.receipts[id].items, user);
  }

  /** Validating a receipt twice records its lines once: the second attempt
      is refused as already validated and changes nothing, and the receipt
      has exactly one entry per line. */
  lemma ValidatedOnce(t: Tables, id: DocId, first: UserId, second: UserId)
    requires Consistent(t)
    requires Validation(t, id, first).result.Ok?
    ensures var t' := Validation(t, id, first).tables;
      && Validation(t', id, second) == Transition(Err(AlreadyValidated), t')
      && CountRef(t'.ledger, Reference(RefReceipt, id)) == |t.receipts[id].items|
  {
    ValidationKeepsConsistent(t, id, first);
  }

  /** Validation keeps the tables consistent: the ledger stays chained and
      sums to the stock, each validated receipt has one entry per line, and
      every entry refers to an existing product and its causing document. */
  lemma ValidationKeepsConsistent(t: Tables, id: DocId, user: UserId)
    requires Consistent(t)
    ensures Consistent(Validation(t, id, user).tables)
  {
    var r := Validation(t, id, user);
    if r.result.Ok? {
      var doc := t.receipts[id];
      var a := Run(t.stock, t.stock, ReceiptLegs(id, doc.items), user).value;
      DraftValidationConsistent(t, id, user, a);
    }
  }

  lemma DraftValidationConsistent(t: Tables, id: DocId, user: UserId, a: Applied)
    requires Consistent(t)
    requires id in t.receipts && t.receipts[id].status == Draft
    requires Run(t.stock, t.stock, ReceiptLegs(id, t.receipts[id].items), user) == Ok(a)
    ensures Consistent(t.(stock := a.stock, ledger := t.ledger + a.entries,
                          receipts := t.receipts[id := t.receipts[id].(status := Validated, validatedBy := Some(user))]))
  {
    var doc := t.receipts[id];
    var legs := ReceiptLegs(id, doc.items);
    RunFacts(t.stock, t.stock, legs, user);
    RunKeepsLedger(t.stock, t.stock, t.ledger, legs, user);
    var e := a.entries;
    forall i | 0 <= i < |e|
      ensures e[i].ref == Reference(RefReceipt, id) && e[i].key.product in t.products
    {
      assert Records(legs[i], user, e[i]);
      assert LinesKnown(doc.items, t.products);
    }
    ValidatedTraceable(t, id, user, a.stock, e);
    ValidatedReferenced(t, id, user, a.stock, e);
  }

  /** Appending the entries of a validated draft keeps every count right. */
  lemma ValidatedTraceable(t: Tables, id: DocId, user: UserId, stock: map<StockKey, int>, e: seq<LedgerEntry>)
    requires Traceable(t)
    requires id in t.receipts && t.receipts[id].status == Draft
    requires |e| == |t.receipts[id].items|
    requires forall i :: 0 <= i < |e| ==> e[i].ref == Reference(RefReceipt, id)
    ensures Traceable(t.(stock := stock, ledger := t.ledger + e,
                         receipts := t.receipts[id := t.receipts[id].(status := Validated, validatedBy := Some(user))]))
  {
    var t' := t.(stock := stock, ledger := t.ledger + e,
                 receipts := t.receipts[id := t.receipts[id].(status := Validated, validatedBy := Some(user))]);
    ValidatedDocTraced(t.receipts, t.ledger, e, RefReceipt, 1, id, user);
    OtherDocsTraced(t.deliveries, t.ledger, e, RefDelivery, 1, Reference(RefReceipt, id));
    OtherDocsTraced(t.transfers, t.ledger, e, RefTransfer, 2, Reference(RefReceipt, id));
    CountAfterAppend(t.ledger, e, Reference(RefReceipt, id));
    forall i | 0 <= i < |t'.ledger|
      ensures Documented(t', t'.ledger[i])
    {
      if i < |t.ledger| {
        assert Documented(t, t.ledger[i]);
      }
    }
  }

  /** Appending entries of known products keeps the foreign keys. */
  lemma ValidatedReferenced(t: Tables, id: DocId, user: UserId, stock: map<StockKey, int>, e: seq<LedgerEntry>)
    requires ProductsReferenced(t)
    requires id in t.receipts
    requires forall i :: 0 <= i < |e| ==> e[i].key.product in t.products
    ensures ProductsReferenced(t.(stock := stock, ledger := t.ledger + e,
                                  receipts := t.receipts[id := t.receipts[id].(status := Validated, validatedBy := Some(user))]))
  {
    var t' := t.(stock := stock, ledger := t.ledger + e,
                 receipts := t.receipts[id := t.receipts[id].(status := Validated, validatedBy := Some(user))]);
    forall i | 0 <= i < |t'.ledger|
      ensures t'.ledger[i].key.product in t'.products
    {
      if i >= |t.ledger| {
        assert t'.ledger[i] == e[i - |t.ledger|];
      }
    }
  }
}
