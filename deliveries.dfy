/** The delivery controller: a delivery is created as a draft with its lines,
    and validating a draft checks each line against the committed stock,
    subtracts its quantity, records one 'delivery' entry per line and marks
    it validated, all in one transaction. */
module Deliveries {
  import opened Inventory
  import opened Ledger
  import opened Movements
  import opened Integrity
  import opened Db
  import StockService

  /** createDelivery as a transition: a draft delivery with exactly the given
      lines under the fresh id, or, when a line's insert violates a foreign
      key, the tables as they were. */
  function Creation(t: Tables, id: DocId, items: seq<LineItem>, user: UserId): (r: Transition<DocId>)
    requires id !in t.deliveries
    ensures r.result.Err? ==> r.tables == t
    ensures r.result.Ok? ==> r.result.value == id && r.tables.deliveries == t.deliveries[id := Document(Draft, user, None, items)]
  {
    if LinesExist(t, items) then Transition(Ok(id), t.(deliveries := t.deliveries[id := Document(Draft, user, None, items)]))
    else Transition(Err(MissingReference), t)
  }

  /** validateDelivery as a transition: not found, already validated and
      cancelled deliveries are refused; a draft is processed against the
      stock as committed and then marked validated by the user; any failure,
      a short line included, leaves every table as it was. */
  function Validation(t: Tables, id: DocId, user: UserId): (r: Transition<()>)
    ensures r.result.Err? ==> r.tables == t
    ensures r.result.Ok? ==> id in t.deliveries && t.deliveries[id].status == Draft
    ensures r.result.Ok? ==> r.tables.deliveries == t.deliveries[id := t.deliveries[id].(status := Validated, validatedBy := Some(user))]
    ensures id !in t.deliveries ==> r.result == Err(NotFound)
    ensures id in t.deliveries && t.deliveries[id].status == Validated ==> r.result == Err(AlreadyValidated)
    ensures id in t.deliveries && t.deliveries[id].status == Cancelled ==> r.result == Err(CancelledDocument)
    ensures id in t.deliveries && t.deliveries[id].status == Draft ==>
      var run := Run(t.stock, t.stock, DeliveryLegs(id, t.deliveries[id].items), user);
      (r.result.Ok? <==> run.Ok?) && (run.Err? ==> r.result == Err(run.error))
  {
    if id !in t.deliveries then Transition(Err(NotFound), t)
    else
      var doc := t.deliveries[id];
      if doc.status == Validated then Transition(Err(AlreadyValidated), t)
      else if doc.status == Cancelled then Transition(Err(CancelledDocument), t)
      else
        assert doc.status == Draft;
        match Run(t.stock, t.stock, DeliveryLegs(id, doc.items), user)
        case Err(e) => Transition(Err(e), t)
        case Ok(a) =>
          Transition(Ok(()), t.(stock := a.stock, ledger := t.ledger + a.entries,
                                deliveries := t.deliveries[id := doc.(status := Validated, validatedBy := Some(user))]))
  }

  /** getDeliveryById: the delivery with its lines, or none. */
  method GetDeliveryById(db: Database, id: DocId) returns (r: Option<Document<LineItem>>)
    ensures r.Some? <==> id in db.deliveries
    ensures r.Some? ==> r.value == db.deliveries[id]
  {
    if id in db.deliveries {
      return Some(db.deliveries[id]);
    }
    return None;
  }

  /** createDelivery: insert the draft, then one item row per line in order;
      a row that violates a foreign key rolls the whole delivery back. */
  method CreateDelivery(db: Database, id: DocId, items: seq<LineItem>, user: UserId) returns (r: Result<DocId>)
    requires db.Valid() && db.Idle()
    requires id !in db.deliveries
    requires |items| > 0 && PositiveLines(items)
    modifies db
    ensures db.Valid() && db.Idle()
    ensures Transition(r, db.Current()) == Creation(old(db.Current()), id, items, user)
  {
    db.deliveries := db.deliveries[id := Document(Draft, user, None, [])];
    var inserted := InsertLines(db, id, items);
    if !inserted {
      db.Rollback();
      return Err(MissingReference);
    }
    assert [] + items == items;
    assert db.Current() == old(db.Current()).(deliveries := old(db.deliveries)[id := Document(Draft, user, None, items)]);
    CreationKeepsConsistent(old(db.Current()), id, items, user);
    db.Commit();
    return Ok(id);
  }

  /** The item-row inserts: one row per line, in order, stopping at the
      first line whose product or location does not exist. */
  method InsertLines(db: Database, id: DocId, items: seq<LineItem>) returns (inserted: bool)
    requires id in db.deliveries
    modifies db`deliveries
    ensures inserted == LinesExist(db.Current(), items)
    ensures inserted ==> db.deliveries == old(db.deliveries)[id := old(db.deliveries)[id].(items := old(db.deliveries)[id].items + items)]
  {
    ghost var prior := db.deliveries[id];
    assert prior.items + items[..0] == prior.items;
    var i := 0;
    while i < |items|
      invariant 0 <= i <= |items|
      invariant db.deliveries == old(db.deliveries)[id := prior.(items := prior.items + items[..i])]
      invariant forall j :: 0 <= j < i ==> items[j].product in db.products && items[j].location in db.locations
    {
      var item := items[i];
      if item.product !in db.products || item.location !in db.locations {
        return false;
      }
      db.deliveries := db.deliveries[id := db.deliveries[id].(items := db.deliveries[id].items + [item])];
      assert prior.items + items[..i + 1] == prior.items + items[..i] + [item];
      i := i + 1;
    }
    assert items[..i] == items;
    return true;
  }

  /** validateDelivery: look the delivery up, refuse it unless it is a draft,
      process its lines, mark it validated and commit; roll back when the
      processing fails. */
  method ValidateDelivery(db: Database, id: DocId, user: UserId) returns (r: Result<()>)
    requires db.Valid() && db.Idle()
    modifies db
    ensures db.Valid() && db.Idle()
    ensures Transition(r, db.Current()) == Validation(old(db.Current()), id, user)
  {
    var delivery := GetDeliveryById(db, id);
    if delivery.None? {
      return Err(NotFound);
    }
    var doc := delivery.value;
    if doc.status == Validated {
      return Err(AlreadyValidated);
    }
    if doc.status == Cancelled {
      return Err(CancelledDocument);
    }
    var processed := StockService.ProcessDelivery(db, id, doc.items, user);
    if processed.Err? {
      db.Rollback();
      return Err(processed.error);
    }
    db.deliveries := db.deliveries[id := doc.(status := Validated, validatedBy := Some(user))];
    ghost var t := old(db.Current());
    ghost var a := Run(t.stock, t.stock, DeliveryLegs(id, doc.items), user).value;
    assert db.Current() == t.(stock := a.stock, ledger := t.ledger + a.entries,
                              deliveries := t.deliveries[id := doc.(status := Validated, validatedBy := Some(user))]);
    ValidationKeepsConsistent(t, id, user);
    db.Commit();
    return Ok(());
  }

  // ---------------------------------------------------------------------
  // What the transitions promise

  /** Creating a draft under a fresh id keeps the tables consistent. */
  lemma CreationKeepsConsistent(t: Tables, id: DocId, items: seq<LineItem>, user: UserId)
    requires Consistent(t) && id !in t.deliveries
    ensures Consistent(Creation(t, id, items, user).tables)
  {
    var r := Creation(t, id, items, user);
    if r.result.Ok? {
      forall i | 0 <= i < |t.ledger|
        ensures t.ledger[i].ref != Reference(RefDelivery, id)
      {
        assert Documented(t, t.ledger[i]);
      }
      NewDraftTraced(t, t.deliveries, RefDelivery, 1, id, Document(Draft, user, None, items));
      assert LinesKnown(items, t.products);
    }
  }

  /** What a successful validation did: every line's location held enough
      committed stock; the lines were taken out of stock in order, one
      'delivery' entry each with the negated quantity, referring to the
      delivery and recorded by the user; every row moved by exactly what its
      new entries record; and the other tables are untouched. */
  lemma ValidationEffect(t: Tables, id: DocId, user: UserId)
    requires Validation(t, id, user).result.Ok?
    ensures var t' := Validation(t, id, user).tables;
      var items := t.deliveries[id].items;
      var e := t'.ledger[|t.ledger|..];
      && t'.ledger == t.ledger + e
      && |e| == |items|
      && (forall i :: 0 <= i < |items| ==> Get(t.stock, StockKey(items[i].product, items[i].location)) >= items[i].quantity)
      && (forall i :: 0 <= i < |items| ==>
            && e[i].key == StockKey(items[i].product, items[i].location)
            && e[i].movement == MoveDelivery && e[i].ref == Reference(RefDelivery, id)
            && e[i].change == -items[i].quantity && e[i].user == user
            && e[i].after == e[i].before + e[i].change && e[i].after >= 0)
      && (forall k :: Get(t'.stock, k) == Get(t.stock, k) + NetChange(e, k))
      && t'.products == t.products && t'.receipts == t.receipts
      && t'.transfers == t.transfers && t'.adjustments == t.adjustments
  {
    var items := t.deliveries[id].items;
    var legs := DeliveryLegs(id, items);
    RunFacts(t.stock, t.stock, legs, user);
    DeliverySucceeded(t.stock, t.stock, id, items, user);
    var a := Run(t.stock, t.stock, legs, user).value;
    var t' := Validation(t, id, user).tables;
    assert t'.ledger[|t.ledger|..] == a.entries;
    forall i | 0 <= i < |items|
      ensures Records(DeliveryLeg(id, items[i]), user, a.entries[i])
    {
      assert Records(legs[i], user, a.entries[i]);
    }
  }

  /** All or nothing: when any line of a draft delivery lacks committed
      stock, validation fails and every table, the delivery's status and
      the stock at the lines before it included, is as it was. */
  lemma ShortLineRollsBack(t: Tables, id: DocId, user: UserId, i: nat)
    requires id in t.deliveries && t.deliveries[id].status == Draft
    requires i < |t.deliveries[id].items|
    requires var item := t.deliveries[id].items[i]; Get(t.stock, StockKey(item.product, item.location)) < item.quantity
    ensures Validation(t, id, user).result.Err? && Validation(t, id, user).tables == t
  {
    DeliveryShortLineFails(t.stock, t.stock, id, t.deliveries[id].items, i, user);
  }

  /** The two-line case: line 1 is covered, line 2 is not. Validation
      reports line 2's shortage and line 1's stock row keeps its quantity,
      the ledger gains nothing and the delivery stays a draft. */
  lemma SecondLineShortRollsBack(t: Tables, id: DocId, user: UserId, first: LineItem, second: LineItem)
    requires id in t.deliveries && t.deliveries[id].status == Draft && t.deliveries[id].items == [first, second]
    requires Get(t.stock, StockKey(first.product, first.location)) >= first.quantity
    requires Get(t.stock, StockKey(second.product, second.location)) < second.quantity
    ensures var r := Validation(t, id, user);
      && r.result == Err(ShortAtLocation(second.product, second.location))
      && Get(r.tables.stock, StockKey(first.product, first.location)) == Get(t.stock, StockKey(first.product, first.location))
      && r.tables.ledger == t.ledger && r.tables.deliveries[id].status == Draft
  {
    var items := [first, second];
    assert items[..1] == [first];
    RunSnoc(t.stock, t.stock, [], DeliveryLeg(id, first), user);
    assert DeliveryLegs(id, items[..1]) == [] + [DeliveryLeg(id, first)];
    DeliveryShortLineFails(t.stock, t.stock, id, items, 1, user);
  }

  /** Validating a delivery twice records its lines once: the second
      attempt is refused as already validated and changes nothing, and the
      delivery has exactly one entry per line. */
  lemma ValidatedOnce(t: Tables, id: DocId, first: UserId, second: UserId)
    requires Consistent(t)
    requires Validation(t, id, first).result.Ok?
    ensures var t' := Validation(t, id, first).tables;
      && Validation(t', id, second) == Transition(Err(AlreadyValidated), t')
      && CountRef(t'.ledger, Reference(RefDelivery, id)) == |t.deliveries[id].items|
  {
    ValidationKeepsConsistent(t, id, first);
  }

  /** Validation keeps the tables consistent: the ledger stays chained and
      sums to the stock, each validated delivery has one entry per line, and
      every entry refers to an existing product and its causing document. */
  lemma ValidationKeepsConsistent(t: Tables, id: DocId, user: UserId)
    requires Consistent(t)
    ensures Consistent(Validation(t, id, user).tables)
  {
    var r := Validation(t, id, user);
    if r.result.Ok? {
      var doc := t.deliveries[id];
      var a := Run(t.stock, t.stock, DeliveryLegs(id, doc.items), user).value;
      DraftValidationConsistent(t, id, user, a);
    }
  }

  lemma DraftValidationConsistent(t: Tables, id: DocId, user: UserId, a: Applied)
    requires Consistent(t)
    requires id in t.deliveries && t.deliveries[id].status == Draft
    requires Run(t.stock, t.stock, DeliveryLegs(id, t.deliveries[id].items), user) == Ok(a)
    ensures Consistent(t.(stock := a.stock, ledger := t.ledger + a.entries,
                          deliveries := t.deliveries[id := t.deliveries[id].(status := Validated, validatedBy := Some(user))]))
  {
    var doc := t.deliveries[id];
    var legs := DeliveryLegs(id, doc.items);
    RunFacts(t.stock, t.stock, legs, user);
    RunKeepsLedger(t.stock, t.stock, t.ledger, legs, user);
    var e := a.entries;
    forall i | 0 <= i < |e|
      ensures e[i].ref == Reference(RefDelivery, id) && e[i].key.product in t.products
    {
      assert Records(legs[i], user, e[i]);
      assert LinesKnown(doc.items, t.products);
    }
    ValidatedTraceable(t, id, user, a.stock, e);
    ValidatedReferenced(t, id, user, a.stock, e);
  }

  /** Appending the entries of a validated draft keeps every count right. */
  lemma ValidatedTraceable(t: Tables, id: DocId, user: UserId, stock: map<StockKey, int>, e: seq<LedgerEntry>)
    requires Traceable(t)
    requires id in t.deliveries && t.deliveries[id].status == Draft
    requires |e| == |t.deliveries[id].items|
    requires forall i :: 0 <= i < |e| ==> e[i].ref == Reference(RefDelivery, id)
    ensures Traceable(t.(stock := stock, ledger := t.ledger + e,
                         deliveries := t.deliveries[id := t.deliveries[id].(status := Validated, validatedBy := Some(user))]))
  {
    var t' := t.(stock := stock, ledger := t.ledger + e,
                 deliveries := t.deliveries[id := t.deliveries[id].(status := Validated, validatedBy := Some(user))]);
    ValidatedDocTraced(t.deliveries, t.ledger, e, RefDelivery, 1, id, user);
    OtherDocsTraced(t.receipts, t.ledger, e, RefReceipt, 1, Reference(RefDelivery, id));
    OtherDocsTraced(t.transfers, t.ledger, e, RefTransfer, 2, Reference(RefDelivery, id));
    CountAfterAppend(t.ledger, e, Reference(RefDelivery, id));
    forall i | 0 <= i < |t'.ledger|
      ensures Documented(t', t'.ledger[i])
    {
      if i < |t.ledger| {
        assert Documented(t, t.ledger[i]);
      }
    }
  }

  /** Appending entries of known products keeps the foreign keys. */
  lemma ValidatedReferenced(t: Tables, id: DocId, user: UserId, stock: map<StockKey, int>, e: seq<LedgerEntry>)
    requires ProductsReferenced(t)
    requires id in t.deliveries
    requires forall i :: 0 <= i < |e| ==> e[i].key.product in t.products
    ensures ProductsReferenced(t.(stock := stock, ledger := t.ledger + e,
                                  deliveries := t.deliveries[id := t.deliveries[id].(status := Validated, validatedBy := Some(user))]))
  {
    var t' := t.(stock := stock, ledger := t.ledger + e,
                 deliveries := t.deliveries[id := t.deliveries[id].(status := Validated, validatedBy := Some(user))]);
    forall i | 0 <= i < |t'.ledger|
      ensures t'.ledger[i].key.product in t'.products
    {
      if i >= |t.ledger| {
        assert t'.ledger[i] == e[i - |t.ledger|];
      }
    }
  }
}
