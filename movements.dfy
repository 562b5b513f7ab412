/** The behaviour of the stock movement processors as values: each document
    line becomes one or two legs (a signed change at one stock row, with the
    ledger fields to record), and a run applies the legs in order the way
    updateStock and addLedgerEntry do, stopping at the first failure. */
module Movements {
  import opened Inventory
  import opened Ledger

  /** One signed change at one stock row and what to record for it. When
      `guard` is set, the row's committed quantity must cover the decrease
      beforehand, or the run fails with that error. */
  datatype Leg = Leg(key: StockKey, change: int, movement: Movement, ref: Reference, note: Note, guard: Option<Error>)

  /** The quantities updateStock returns. */
  datatype Change = Change(before: int, after: int)

  /** The working stock and the entries appended so far. */
  datatype Applied = Applied(stock: map<StockKey, int>, entries: seq<LedgerEntry>)

  /** updateStock's read-compute-check step: the stored quantity (0 for a
      missing row) plus the change, refused when negative. */
  function StockUpdate(stock: map<StockKey, int>, key: StockKey, change: int): (r: Result<Change>)
    ensures r.Ok? <==> Get(stock, key) + change >= 0
    ensures r.Ok? ==> r.value.before == Get(stock, key) && r.value.after == r.value.before + change
    ensures r.Err? ==> r.error == InsufficientStock
  {
    var before := Get(stock, key);
    if before + change < 0 then Err(InsufficientStock) else Ok(Change(before, before + change))
  }

  /** The ledger entry addLedgerEntry writes for a leg. */
  function Record(leg: Leg, c: Change, user: UserId): LedgerEntry
  {
    LedgerEntry(leg.key, leg.movement, leg.ref, leg.change, c.before, c.after, leg.note, user)
  }

  /** An entry records a leg faithfully and is arithmetically sound. */
  predicate Records(leg: Leg, user: UserId, e: LedgerEntry)
  {
    && e.key == leg.key && e.movement == leg.movement && e.ref == leg.ref
    && e.change == leg.change && e.note == leg.note && e.user == user
    && Sound(e)
  }

  /** One leg: the pre-check against committed stock, then the update of the
      working stock and the append of one entry. */
  function Step(committed: map<StockKey, int>, acc: Applied, leg: Leg, user: UserId): Result<Applied>
  {
    if leg.guard.Some? && Get(committed, leg.key) < -leg.change then Err(leg.guard.value)
    else
      match StockUpdate(acc.stock, leg.key, leg.change)
      case Err(e) => Err(e)
      case Ok(c) => Ok(Applied(acc.stock[leg.key := c.after], acc.entries + [Record(leg, c, user)]))
  }

  /** One iteration of a processor's loop: it fails with the leg's own
      error when the committed stock does not cover a pre-checked decrease,
      with 'Insufficient stock' when the working row would go negative, and
      otherwise moves only the leg's row by the change and appends one sound
      entry recording the leg from the row's quantity so far. */
  lemma StepOutcome(committed: map<StockKey, int>, acc: Applied, leg: Leg, user: UserId)
    ensures var r := Step(committed, acc, leg, user);
      && (r.Ok? <==> !(leg.guard.Some? && Get(committed, leg.key) < -leg.change) && Get(acc.stock, leg.key) + leg.change >= 0)
      && (leg.guard.Some? && Get(committed, leg.key) < -leg.change ==> r == Err(leg.guard.value))
      && (r.Err? && (leg.guard.None? || Get(committed, leg.key) >= -leg.change) ==> r == Err(InsufficientStock))
    ensures var r := Step(committed, acc, leg, user);
      r.Ok? ==> var e := r.value.entries;
        && |e| == |acc.entries| + 1 && e[..|acc.entries|] == acc.entries
        && Records(leg, user, e[|acc.entries|]) && e[|acc.entries|].before == Get(acc.stock, leg.key)
        && (forall k :: Get(r.value.stock, k) == if k == leg.key then Get(acc.stock, leg.key) + leg.change else Get(acc.stock, k))
  {
  }

  /** The set of stock rows some leg touches. */
  function LegKeys(legs: seq<Leg>): set<StockKey>
  {
    set i | 0 <= i < |legs| :: legs[i].key
  }

  /** Applying the legs in order from working stock `stock`, pre-checks
      reading `committed`, stopping at the first failure. */
  function Run(committed: map<StockKey, int>, stock: map<StockKey, int>, legs: seq<Leg>, user: UserId): (r: Result<Applied>)
    ensures r.Err? ==> r.error == InsufficientStock || exists i :: 0 <= i < |legs| && legs[i].guard == Some(r.error)
    decreases |legs|
  {
    if legs == [] then Ok(Applied(stock, []))
    else
      var prior := Run(committed, stock, legs[..|legs| - 1], user);
      if prior.Err? then prior else Step(committed, prior.value, legs[|legs| - 1], user)
  }

  /** What a successful run produced: exactly one entry per leg, in order,
      each recording its leg and sound; each entry starts from the row's
      quantity at that point; each row ends at its start plus the sum of its
      entries; and no row has become negative. */
  lemma {:induction false} RunFacts(committed: map<StockKey, int>, stock: map<StockKey, int>, legs: seq<Leg>, user: UserId)
    requires Run(committed, stock, legs, user).Ok?
    ensures var a := Run(committed, stock, legs, user).value;
      && |a.entries| == |legs|
      && (forall i :: 0 <= i < |legs| ==> Records(legs[i], user, a.entries[i]))
      && (forall i :: 0 <= i < |legs| ==> a.entries[i].before == Get(stock, legs[i].key) + NetChange(a.entries[..i], legs[i].key))
      && (forall k :: Get(a.stock, k) == Get(stock, k) + NetChange(a.entries, k))
      && (NonNegative(stock) ==> NonNegative(a.stock))
    decreases |legs|
  {
    if legs != [] {
      var prefix := legs[..|legs| - 1];
      RunFacts(committed, stock, prefix, user);
      var prior := Run(committed, stock, prefix, user);
      RunStepFacts(committed, stock, legs, user, prior.value, Run(committed, stock, legs, user));
    }
  }

  /** The inductive step behind Run's contract. */
  lemma RunStepFacts(committed: map<StockKey, int>, stock: map<StockKey, int>, legs: seq<Leg>, user: UserId,
                     acc: Applied, r: Result<Applied>)
    requires legs != []
    requires |acc.entries| == |legs| - 1
    requires forall i :: 0 <= i < |legs| - 1 ==> Records(legs[i], user, acc.entries[i])
    requires forall i :: 0 <= i < |legs| - 1 ==>
      acc.entries[i].before == Get(stock, legs[i].key) + NetChange(acc.entries[..i], legs[i].key)
    requires forall k :: Get(acc.stock, k) == Get(stock, k) + NetChange(acc.entries, k)
    requires NonNegative(stock) ==> NonNegative(acc.stock)
    requires r == Step(committed, acc, legs[|legs| - 1], user)
    ensures r.Ok? ==> forall i :: 0 <= i < |legs| ==> Records(legs[i], user, r.value.entries[i])
    ensures r.Ok? ==> forall i :: 0 <= i < |legs| ==>
      r.value.entries[i].before == Get(stock, legs[i].key) + NetChange(r.value.entries[..i], legs[i].key)
    ensures r.Ok? ==> forall k :: Get(r.value.stock, k) == Get(stock, k) + NetChange(r.value.entries, k)
    ensures r.Ok? && NonNegative(stock) ==> NonNegative(r.value.stock)
  {
    if r.Ok? {
      var n := |legs| - 1;
      var leg := legs[n];
      var entries := r.value.entries;
      assert entries == acc.entries + [entries[n]];
      assert entries[..n] == acc.entries;
      forall i | 0 <= i < |legs|
        ensures Records(legs[i], user, entries[i])
        ensures entries[i].before == Get(stock, legs[i].key) + NetChange(entries[..i], legs[i].key)
      {
        if i < n {
          assert entries[..i] == acc.entries[..i];
        }
      }
      forall k
        ensures Get(r.value.stock, k) == Get(stock, k) + NetChange(entries, k)
      {
      }
    }
  }

  /** Run over legs followed by one more leg is the run of the legs, then that leg's step. */
  lemma RunSnoc(committed: map<StockKey, int>, stock: map<StockKey, int>, legs: seq<Leg>, leg: Leg, user: UserId)
    ensures Run(committed, stock, legs + [leg], user) ==
      (var prior := Run(committed, stock, legs, user);
       if prior.Err? then prior else Step(committed, prior.value, leg, user))
  {
    assert (legs + [leg])[..|legs + [leg]| - 1] == legs;
  }

  /** A run extended by a leg whose pre-check passes and whose update
      succeeds ends with that update applied and its entry appended. */
  lemma RunExtends(committed: map<StockKey, int>, stock: map<StockKey, int>, legs: seq<Leg>, leg: Leg, user: UserId,
                   acc: Applied, c: Change)
    requires Run(committed, stock, legs, user) == Ok(acc)
    requires leg.guard.None? || Get(committed, leg.key) >= -leg.change
    requires StockUpdate(acc.stock, leg.key, leg.change) == Ok(c)
    ensures Run(committed, stock, legs + [leg], user) ==
      Ok(Applied(acc.stock[leg.key := c.after], acc.entries + [Record(leg, c, user)]))
  {
    RunSnoc(committed, stock, legs, leg, user);
  }

  /** Once a prefix of the legs fails, the whole run fails with the same error. */
  lemma {:induction false} RunFailurePersists(committed: map<StockKey, int>, stock: map<StockKey, int>, legs: seq<Leg>, n: nat, user: UserId)
    requires n <= |legs|
    requires Run(committed, stock, legs[..n], user).Err?
    ensures Run(committed, stock, legs, user) == Run(committed, stock, legs[..n], user)
    decreases |legs| - n
  {
    if n < |legs| {
      var m := n + 1;
      assert legs[..m][..m - 1] == legs[..n];
      RunFailurePersists(committed, stock, legs, m, user);
    } else {
      assert legs[..n] == legs;
    }
  }

  /** A run leaves every row no leg touches as it was. */
  lemma RunUntouched(committed: map<StockKey, int>, stock: map<StockKey, int>, legs: seq<Leg>, user: UserId, k: StockKey)
    requires Run(committed, stock, legs, user).Ok?
    requires k !in LegKeys(legs)
    ensures Get(Run(committed, stock, legs, user).value.stock, k) == Get(stock, k)
  {
    RunFacts(committed, stock, legs, user);
    var entries := Run(committed, stock, legs, user).value.entries;
    forall i | 0 <= i < |entries|
      ensures entries[i].key != k
    {
      assert legs[i].key in LegKeys(legs);
    }
    NetChangeAbsent(entries, k);
  }

  /** Appending a successful run's entries to a ledger that reconstructs the
      working stock keeps it chained and reconstructing the new stock: the
      reconstruction invariant is preserved by every movement. */
  lemma RunKeepsLedger(committed: map<StockKey, int>, stock: map<StockKey, int>, ledger: seq<LedgerEntry>,
                       legs: seq<Leg>, user: UserId)
    requires Chained(ledger) && Reconstructs(stock, ledger)
    requires Run(committed, stock, legs, user).Ok?
    ensures var a := Run(committed, stock, legs, user).value;
      Chained(ledger + a.entries) && Reconstructs(a.stock, ledger + a.entries)
  {
    RunFacts(committed, stock, legs, user);
    var a := Run(committed, stock, legs, user).value;
    var l' := ledger + a.entries;
    forall i | 0 <= i < |l'|
      ensures Sound(l'[i]) && l'[i].before == NetChange(l'[..i], l'[i].key)
    {
      if i < |ledger| {
        assert l'[..i] == ledger[..i];
      } else {
        var j := i - |ledger|;
        assert l'[i] == a.entries[j];
        assert Records(legs[j], user, a.entries[j]);
        assert l'[..i] == ledger + a.entries[..j];
        NetChangeConcat(ledger, a.entries[..j], l'[i].key);
      }
    }
    forall k
      ensures Get(a.stock, k) == NetChange(l', k)
    {
      NetChangeConcat(ledger, a.entries, k);
    }
  }

  // ---------------------------------------------------------------------
  // The legs of each kind of document

  function ReceiptLeg(receiptId: DocId, item: LineItem): Leg
  {
    Leg(StockKey(item.product, item.location), item.quantity, MoveReceipt,
        Reference(RefReceipt, receiptId), ReceiptNote(receiptId), None)
  }

  /** processReceipt: one leg per line, adding its quantity, no pre-check. */
  function ReceiptLegs(receiptId: DocId, items: seq<LineItem>): (legs: seq<Leg>)
    ensures |legs| == |items|
    ensures forall i :: 0 <= i < |items| ==> legs[i] == ReceiptLeg(receiptId, items[i])
    decreases |items|
  {
    if items == [] then []
    else ReceiptLegs(receiptId, items[..|items| - 1]) + [ReceiptLeg(receiptId, items[|items| - 1])]
  }

  function DeliveryLeg(deliveryId: DocId, item: LineItem): Leg
  {
    Leg(StockKey(item.product, item.location), -item.quantity, MoveDelivery,
        Reference(RefDelivery, deliveryId), DeliveryNote(deliveryId),
        Some(ShortAtLocation(item.product, item.location)))
  }

  /** processDelivery: one leg per line, subtracting its quantity, after a
      pre-check of the committed stock at its location. */
  function DeliveryLegs(deliveryId: DocId, items: seq<LineItem>): (legs: seq<Leg>)
    ensures |legs| == |items|
    ensures forall i :: 0 <= i < |items| ==> legs[i] == DeliveryLeg(deliveryId, items[i])
    decreases |items|
  {
    if items == [] then []
    else DeliveryLegs(deliveryId, items[..|items| - 1]) + [DeliveryLeg(deliveryId, items[|items| - 1])]
  }

  function TransferOutLeg(transferId: DocId, item: TransferItem): Leg
  {
    Leg(StockKey(item.product, item.from), -item.quantity, MoveTransferOut,
        Reference(RefTransfer, transferId), TransferOutNote(transferId), Some(ShortAtSource(item.product)))
  }

  function TransferInLeg(transferId: DocId, item: TransferItem): Leg
  {
    Leg(StockKey(item.product, item.to), item.quantity, MoveTransferIn,
        Reference(RefTransfer, transferId), TransferInNote(transferId), None)
  }

  /** processTransfer: two legs per line, out of the source (pre-checked
      against committed stock) and then into the destination. */
  function TransferLegs(transferId: DocId, items: seq<TransferItem>): (legs: seq<Leg>)
    ensures |legs| == 2 * |items|
    ensures forall i :: 0 <= i < |items| ==>
      legs[2 * i] == TransferOutLeg(transferId, items[i]) && legs[2 * i + 1] == TransferInLeg(transferId, items[i])
    decreases |items|
  {
    if items == [] then []
    else
      var last := items[|items| - 1];
      TransferLegs(transferId, items[..|items| - 1]) + [TransferOutLeg(transferId, last), TransferInLeg(transferId, last)]
  }

  lemma TransferLegsPrefix(transferId: DocId, items: seq<TransferItem>, n: nat)
    requires n <= |items|
    ensures TransferLegs(transferId, items)[..2 * n] == TransferLegs(transferId, items[..n])
  {
    var a, b := TransferLegs(transferId, items)[..2 * n], TransferLegs(transferId, items[..n]);
    forall j | 0 <= j < 2 * n
      ensures a[j] == b[j]
    {
      var i := j / 2;
      assert items[..n][i] == items[i];
      if j % 2 == 0 {
        assert j == 2 * i;
      } else {
        assert j == 2 * i + 1;
      }
    }
  }

  /** The legs of the first i + 1 lines are those of the first i lines,
      then the out-leg and the in-leg of line i. */
  lemma TransferLegsSnoc(transferId: DocId, items: seq<TransferItem>, i: nat)
    requires i < |items|
    ensures TransferLegs(transferId, items[..i + 1]) ==
      TransferLegs(transferId, items[..i]) + [TransferOutLeg(transferId, items[i])] + [TransferInLeg(transferId, items[i])]
  {
    assert items[..i + 1][..i] == items[..i];
  }

  /** One more leg that passes its pre-check and keeps its row non-negative
      extends a successful run, moving only that row. */
  lemma RunStockStep(committed: map<StockKey, int>, stock: map<StockKey, int>, legs: seq<Leg>, leg: Leg,
                     user: UserId, before: map<StockKey, int>)
    requires Run(committed, stock, legs, user).Ok? && Run(committed, stock, legs, user).value.stock == before
    requires !(leg.guard.Some? && Get(committed, leg.key) < -leg.change) && Get(before, leg.key) + leg.change >= 0
    ensures Run(committed, stock, legs + [leg], user).Ok?
    ensures Run(committed, stock, legs + [leg], user).value.stock == before[leg.key := Get(before, leg.key) + leg.change]
  {
    RunSnoc(committed, stock, legs, leg, user);
  }

  /** The order of a transfer's lines matters (first half): with 10
      committed at each of two locations, moving 10 twice out of the second
      before refilling it from the first fails on the second move, because
      the working stock there is already 0. */
  lemma TransferDrainFirstFails(transferId: DocId, user: UserId)
    ensures var stock := map[StockKey(1, 10) := 10, StockKey(1, 20) := 10];
      Run(stock, stock, TransferLegs(transferId, [TransferItem(1, 20, 30, 10), TransferItem(1, 20, 40, 10),
                                                  TransferItem(1, 10, 20, 10)]), user) == Err(InsufficientStock)
  {
    var stock := map[StockKey(1, 10) := 10, StockKey(1, 20) := 10];
    var first := TransferItem(1, 20, 30, 10);
    var second := TransferItem(1, 20, 40, 10);
    var items := [first, second, TransferItem(1, 10, 20, 10)];
    var out1 := TransferOutLeg(transferId, first);
    var in1 := TransferInLeg(transferId, first);
    var out2 := TransferOutLeg(transferId, second);
    assert TransferLegs(transferId, items[..1]) == [out1, in1] by {
      assert items[..1][..0] == [];
      TransferLegsSnoc(transferId, items[..1], 0);
    }
    RunStockStep(stock, stock, [], out1, user, stock);
    var s1 := stock[StockKey(1, 20) := 0];
    RunStockStep(stock, stock, [out1], in1, user, s1);
    var s2 := s1[StockKey(1, 30) := 10];
    assert [out1] + [in1] == [out1, in1];
    RunSnoc(stock, stock, [out1, in1], out2, user);
    assert Get(s2, StockKey(1, 20)) == 0;
    TransferOutFailurePersists(stock, stock, transferId, items, 1, user);
  }

  /** The order of a transfer's lines matters (second half): the same three
      lines succeed when the refill comes first. */
  lemma TransferRefillFirstSucceeds(transferId: DocId, user: UserId)
    ensures var stock := map[StockKey(1, 10) := 10, StockKey(1, 20) := 10];
      Run(stock, stock, TransferLegs(transferId, [TransferItem(1, 10, 20, 10), TransferItem(1, 20, 30, 10),
                                                  TransferItem(1, 20, 40, 10)]), user).Ok?
  {
    var stock := map[StockKey(1, 10) := 10, StockKey(1, 20) := 10];
    var items := [TransferItem(1, 10, 20, 10), TransferItem(1, 20, 30, 10), TransferItem(1, 20, 40, 10)];
    var legs := TransferLegs(transferId, items);
    assert legs == [TransferOutLeg(transferId, items[0]), TransferInLeg(transferId, items[0]),
                    TransferOutLeg(transferId, items[1]), TransferInLeg(transferId, items[1]),
                    TransferOutLeg(transferId, items[2]), TransferInLeg(transferId, items[2])];
    var s1 := stock[StockKey(1, 10) := 0];
    var s2 := s1[StockKey(1, 20) := 20];
    var s3 := s2[StockKey(1, 20) := 10];
    var s4 := s3[StockKey(1, 30) := 10];
    var s5 := s4[StockKey(1, 20) := 0];
    assert legs[..0] + [legs[0]] == legs[..1];
    RunStockStep(stock, stock, legs[..0], legs[0], user, stock);
    assert legs[..1] + [legs[1]] == legs[..2];
    RunStockStep(stock, stock, legs[..1], legs[1], user, s1);
    assert legs[..2] + [legs[2]] == legs[..3];
    RunStockStep(stock, stock, legs[..2], legs[2], user, s2);
    assert legs[..3] + [legs[3]] == legs[..4];
    RunStockStep(stock, stock, legs[..3], legs[3], user, s3);
    assert legs[..4] + [legs[4]] == legs[..5];
    RunStockStep(stock, stock, legs[..4], legs[4], user, s4);
    assert legs[..5] + [legs[5]] == legs;
    RunStockStep(stock, stock, legs[..5], legs[5], user, s5);
  }

  /** A failure on the legs of the first i lines is the failure of the
      whole transfer. */
  lemma TransferFailurePersists(committed: map<StockKey, int>, stock: map<StockKey, int>, transferId: DocId,
                                items: seq<TransferItem>, i: nat, user: UserId)
    requires i <= |items|
    requires Run(committed, stock, TransferLegs(transferId, items[..i]), user).Err?
    ensures Run(committed, stock, TransferLegs(transferId, items), user) == Run(committed, stock, TransferLegs(transferId, items[..i]), user)
  {
    TransferLegsPrefix(transferId, items, i);
    RunFailurePersists(committed, stock, TransferLegs(transferId, items), 2 * i, user);
  }

  /** A failure on the out-leg of line i is the failure of the whole transfer. */
  lemma TransferOutFailurePersists(committed: map<StockKey, int>, stock: map<StockKey, int>, transferId: DocId,
                                   items: seq<TransferItem>, i: nat, user: UserId)
    requires i < |items|
    requires Run(committed, stock, TransferLegs(transferId, items[..i]) + [TransferOutLeg(transferId, items[i])], user).Err?
    ensures Run(committed, stock, TransferLegs(transferId, items), user) ==
      Run(committed, stock, TransferLegs(transferId, items[..i]) + [TransferOutLeg(transferId, items[i])], user)
  {
    var legs := TransferLegs(transferId, items);
    TransferLegsPrefix(transferId, items, i);
    assert legs[..2 * i + 1] == TransferLegs(transferId, items[..i]) + [TransferOutLeg(transferId, items[i])];
    RunFailurePersists(committed, stock, legs, 2 * i + 1, user);
  }

  /** processAdjustment's signed change: the quantity for type 'increase',
      its negation for any other type. */
  function AdjustmentChange(adjustment: Adjustment): (change: int)
    ensures change == adjustment.quantity || change == -adjustment.quantity
    ensures adjustment.quantity > 0 ==> (change > 0 <==> adjustment.adjustmentType == "increase")
  {
    if adjustment.adjustmentType == "increase" then adjustment.quantity else -adjustment.quantity
  }

  /** processAdjustment: one leg, no pre-check, noted with the reason. */
  function AdjustmentLeg(adjustmentId: DocId, adjustment: Adjustment): (leg: Leg)
    ensures leg.guard.None? && leg.key == StockKey(adjustment.product, adjustment.location)
    ensures leg.movement == MoveAdjustment && leg.ref == Reference(RefStockAdjustment, adjustmentId)
    ensures leg.note == Reason(adjustment.reason)
  {
    Leg(StockKey(adjustment.product, adjustment.location), AdjustmentChange(adjustment), MoveAdjustment,
        Reference(RefStockAdjustment, adjustmentId), Reason(adjustment.reason), None)
  }

  /** processAdjustment has no pre-check: its outcome does not depend on the
      committed stock, and it fails exactly when the signed change would take
      the row below zero. */
  lemma AdjustmentRunOutcome(committed: map<StockKey, int>, other: map<StockKey, int>, stock: map<StockKey, int>,
                             adjustmentId: DocId, adjustment: Adjustment, user: UserId)
    ensures var key := StockKey(adjustment.product, adjustment.location);
      Run(committed, stock, [AdjustmentLeg(adjustmentId, adjustment)], user).Ok? <==>
        Get(stock, key) + AdjustmentChange(adjustment) >= 0
    ensures Run(committed, stock, [AdjustmentLeg(adjustmentId, adjustment)], user) ==
            Run(other, stock, [AdjustmentLeg(adjustmentId, adjustment)], user)
  {
    var leg := AdjustmentLeg(adjustmentId, adjustment);
    RunSnoc(committed, stock, [], leg, user);
    RunSnoc(other, stock, [], leg, user);
    StepOutcome(committed, Applied(stock, []), leg, user);
  }

  // ---------------------------------------------------------------------
  // What the processors promise

  /** A run that succeeds on all legs succeeds on every prefix of them. */
  lemma RunPrefixSucceeds(committed: map<StockKey, int>, stock: map<StockKey, int>, legs: seq<Leg>, n: nat, user: UserId)
    requires n <= |legs|
    requires Run(committed, stock, legs, user).Ok?
    ensures Run(committed, stock, legs[..n], user).Ok?
  {
    if Run(committed, stock, legs[..n], user).Err? {
      RunFailurePersists(committed, stock, legs, n, user);
    }
  }

  /** A guarded leg whose committed stock does not cover its decrease makes
      the run fail with the guard's error, unless an earlier leg failed first. */
  lemma GuardedLegFails(committed: map<StockKey, int>, stock: map<StockKey, int>, legs: seq<Leg>, i: nat, user: UserId)
    requires i < |legs| && legs[i].guard.Some?
    requires Get(committed, legs[i].key) < -legs[i].change
    ensures Run(committed, stock, legs, user).Err?
    ensures Run(committed, stock, legs[..i], user).Ok? ==> Run(committed, stock, legs, user) == Err(legs[i].guard.value)
  {
    assert legs[..i + 1] == legs[..i] + [legs[i]];
    RunSnoc(committed, stock, legs[..i], legs[i], user);
    RunFailurePersists(committed, stock, legs, i + 1, user);
  }

  /** A successful run passed every pre-check. */
  lemma RunPassedGuards(committed: map<StockKey, int>, stock: map<StockKey, int>, legs: seq<Leg>, user: UserId)
    requires Run(committed, stock, legs, user).Ok?
    ensures forall i :: 0 <= i < |legs| && legs[i].guard.Some? ==> Get(committed, legs[i].key) >= -legs[i].change
  {
    forall i | 0 <= i < |legs| && legs[i].guard.Some?
      ensures Get(committed, legs[i].key) >= -legs[i].change
    {
      if Get(committed, legs[i].key) < -legs[i].change {
        GuardedLegFails(committed, stock, legs, i, user);
      }
    }
  }

  /** A receipt of positive quantities into non-negative stock never fails,
      and every entry it records is an increase. */
  lemma {:induction false} ReceiptRunSucceeds(committed: map<StockKey, int>, stock: map<StockKey, int>,
                                               receiptId: DocId, items: seq<LineItem>, user: UserId)
    requires NonNegative(stock) && PositiveLines(items)
    ensures var r := Run(committed, stock, ReceiptLegs(receiptId, items), user);
      r.Ok? && forall i :: 0 <= i < |r.value.entries| ==> r.value.entries[i].change > 0
    decreases |items|
  {
    var legs := ReceiptLegs(receiptId, items);
    if items != [] {
      var n := |items| - 1;
      var prefix := items[..n];
      ReceiptRunSucceeds(committed, stock, receiptId, prefix, user);
      assert legs == ReceiptLegs(receiptId, prefix) + [ReceiptLeg(receiptId, items[n])];
      RunSnoc(committed, stock, ReceiptLegs(receiptId, prefix), ReceiptLeg(receiptId, items[n]), user);
      RunFacts(committed, stock, ReceiptLegs(receiptId, prefix), user);
      var acc := Run(committed, stock, ReceiptLegs(receiptId, prefix), user).value;
      var leg := ReceiptLeg(receiptId, items[n]);
      assert leg.guard.None? && leg.change > 0;
      if leg.key in acc.stock {
        assert acc.stock[leg.key] >= 0;
      }
      StepOutcome(committed, acc, leg, user);
    }
    RunFacts(committed, stock, legs, user);
    var r := Run(committed, stock, legs, user);
    forall i | 0 <= i < |r.value.entries|
      ensures r.value.entries[i].change > 0
    {
      assert Records(legs[i], user, r.value.entries[i]);
    }
  }

  /** processDelivery fails as soon as a line's committed stock is below its
      quantity: with ShortAtLocation for that line when the lines before it
      went through. */
  lemma DeliveryShortLineFails(committed: map<StockKey, int>, stock: map<StockKey, int>,
                               deliveryId: DocId, items: seq<LineItem>, i: nat, user: UserId)
    requires i < |items|
    requires Get(committed, StockKey(items[i].product, items[i].location)) < items[i].quantity
    ensures Run(committed, stock, DeliveryLegs(deliveryId, items), user).Err?
    ensures Run(committed, stock, DeliveryLegs(deliveryId, items[..i]), user).Ok? ==>
      Run(committed, stock, DeliveryLegs(deliveryId, items), user) == Err(ShortAtLocation(items[i].product, items[i].location))
  {
    var legs := DeliveryLegs(deliveryId, items);
    assert legs[..i] == DeliveryLegs(deliveryId, items[..i]);
    GuardedLegFails(committed, stock, legs, i, user);
  }

  /** A successful delivery had committed stock for each line, and every
      entry it records is a decrease by the line's quantity. */
  lemma DeliverySucceeded(committed: map<StockKey, int>, stock: map<StockKey, int>,
                          deliveryId: DocId, items: seq<LineItem>, user: UserId)
    requires Run(committed, stock, DeliveryLegs(deliveryId, items), user).Ok?
    ensures forall i :: 0 <= i < |items| ==> Get(committed, StockKey(items[i].product, items[i].location)) >= items[i].quantity
    ensures var e := Run(committed, stock, DeliveryLegs(deliveryId, items), user).value.entries;
      |e| == |items| && forall i :: 0 <= i < |items| ==> e[i].change == -items[i].quantity && e[i].movement == MoveDelivery
  {
    var legs := DeliveryLegs(deliveryId, items);
    RunPassedGuards(committed, stock, legs, user);
    RunFacts(committed, stock, legs, user);
    var e := Run(committed, stock, legs, user).value.entries;
    forall i | 0 <= i < |items|
      ensures Get(committed, StockKey(items[i].product, items[i].location)) >= items[i].quantity
      ensures e[i].change == -items[i].quantity && e[i].movement == MoveDelivery
    {
      assert legs[i] == DeliveryLeg(deliveryId, items[i]);
      assert Records(legs[i], user, e[i]);
    }
  }

  /** processTransfer fails when a line's committed source stock is below its
      quantity: with ShortAtSource for that line when the legs before it went through. */
  lemma TransferShortSourceFails(committed: map<StockKey, int>, stock: map<StockKey, int>,
                                 transferId: DocId, items: seq<TransferItem>, i: nat, user: UserId)
    requires i < |items|
    requires Get(committed, StockKey(items[i].product, items[i].from)) < items[i].quantity
    ensures Run(committed, stock, TransferLegs(transferId, items), user).Err?
    ensures Run(committed, stock, TransferLegs(transferId, items[..i]), user).Ok? ==>
      Run(committed, stock, TransferLegs(transferId, items), user) == Err(ShortAtSource(items[i].product))
  {
    var legs := TransferLegs(transferId, items);
    assert legs[2 * i] == TransferOutLeg(transferId, items[i]);
    TransferLegsPrefix(transferId, items, i);
    GuardedLegFails(committed, stock, legs, 2 * i, user);
  }

  /** A successful transfer records, per line and in order, the out-leg at
      the source with -quantity and then the in-leg at the destination with
      +quantity, both referring to the transfer; so for every product the
      changes it records add up to zero. */
  lemma TransferBalances(committed: map<StockKey, int>, stock: map<StockKey, int>,
                         transferId: DocId, items: seq<TransferItem>, user: UserId, product: ProductId)
    requires Run(committed, stock, TransferLegs(transferId, items), user).Ok?
    ensures var e := Run(committed, stock, TransferLegs(transferId, items), user).value.entries;
      && |e| == 2 * |items|
      && (forall i :: 0 <= i < |items| ==>
            && e[2 * i].key == StockKey(items[i].product, items[i].from)
            && e[2 * i].movement == MoveTransferOut && e[2 * i].change == -items[i].quantity
            && e[2 * i + 1].key == StockKey(items[i].product, items[i].to)
            && e[2 * i + 1].movement == MoveTransferIn && e[2 * i + 1].change == items[i].quantity
            && e[2 * i].ref == e[2 * i + 1].ref == Reference(RefTransfer, transferId))
      && ProductChange(e, product) == 0
  {
    var legs := TransferLegs(transferId, items);
    RunFacts(committed, stock, legs, user);
    var e := Run(committed, stock, legs, user).value.entries;
    forall i | 0 <= i < |items|
      ensures Records(TransferOutLeg(transferId, items[i]), user, e[2 * i])
      ensures Records(TransferInLeg(transferId, items[i]), user, e[2 * i + 1])
    {
      assert Records(legs[2 * i], user, e[2 * i]);
      assert Records(legs[2 * i + 1], user, e[2 * i + 1]);
    }
    PairsCancel(e, items, product);
  }

  lemma {:induction false} PairsCancel(e: seq<LedgerEntry>, items: seq<TransferItem>, product: ProductId)
    requires |e| == 2 * |items|
    requires forall i :: 0 <= i < |items| ==>
      && e[2 * i].key.product == items[i].product && e[2 * i].change == -items[i].quantity
      && e[2 * i + 1].key.product == items[i].product && e[2 * i + 1].change == items[i].quantity
    ensures ProductChange(e, product) == 0
    decreases |items|
  {
    if items != [] {
      var n := |items| - 1;
      var e' := e[..2 * n];
      forall i | 0 <= i < n
        ensures e'[2 * i] == e[2 * i] && e'[2 * i + 1] == e[2 * i + 1]
      {
      }
      PairsCancel(e', items[..n], product);
      assert e[..2 * n + 1][..2 * n] == e';
      assert e[..|e| - 1] == e[..2 * n + 1];
    }
  }

  /** A one-line transfer leaves stock(source) + stock(destination) as it was. */
  lemma TransferConservesPair(committed: map<StockKey, int>, stock: map<StockKey, int>,
                              transferId: DocId, item: TransferItem, user: UserId)
    requires Run(committed, stock, TransferLegs(transferId, [item]), user).Ok?
    ensures var a := Run(committed, stock, TransferLegs(transferId, [item]), user).value;
      var from, to := StockKey(item.product, item.from), StockKey(item.product, item.to);
      Get(a.stock, from) + Get(a.stock, to) == Get(stock, from) + Get(stock, to)
  {
    var legs := TransferLegs(transferId, [item]);
    RunFacts(committed, stock, legs, user);
    var e := Run(committed, stock, legs, user).value.entries;
    assert Records(legs[0], user, e[0]) && Records(legs[1], user, e[1]);
    var from, to := StockKey(item.product, item.from), StockKey(item.product, item.to);
    assert e[..1][..0] == [];
    assert e[..|e| - 1] == e[..1];
    assert NetChange(e[..1], from) == (if e[0].key == from then e[0].change else 0);
    assert NetChange(e[..1], to) == (if e[0].key == to then e[0].change else 0);
  }
}
