/** Facts about the append-only stock ledger: how its entries add up per
    stock row, how consecutive entries of one row chain, and how many entries
    each causing document has. */
module Ledger {
  import opened Inventory

  /** The sum of the changes the entries record for one stock row. */
  function NetChange(entries: seq<LedgerEntry>, key: StockKey): int
  {
    if entries == [] then 0
    else
      var last := entries[|entries| - 1];
      NetChange(entries[..|entries| - 1], key) + (if last.key == key then last.change else 0)
  }

  /** The sum of the changes the entries record for one product, over all locations. */
  function ProductChange(entries: seq<LedgerEntry>, product: ProductId): int
  {
    if entries == [] then 0
    else
      var last := entries[|entries| - 1];
      ProductChange(entries[..|entries| - 1], product) + (if last.key.product == product then last.change else 0)
  }

  /** The number of entries caused by one document. */
  function CountRef(entries: seq<LedgerEntry>, ref: Reference): nat
  {
    if entries == [] then 0
    else CountRef(entries[..|entries| - 1], ref) + (if entries[|entries| - 1].ref == ref then 1 else 0)
  }

  /** One entry is arithmetically sound: after = before + change, and after is not negative. */
  predicate Sound(e: LedgerEntry)
  {
    e.after == e.before + e.change && e.after >= 0
  }

  /** Every entry is sound and starts from the quantity all earlier entries
      of its stock row add up to. */
  ghost predicate Chained(ledger: seq<LedgerEntry>)
  {
    forall i :: 0 <= i < |ledger| ==> Sound(ledger[i]) && ledger[i].before == NetChange(ledger[..i], ledger[i].key)
  }

  /** Every stock row holds exactly the sum of its ledger changes. */
  ghost predicate Reconstructs(stock: map<StockKey, int>, ledger: seq<LedgerEntry>)
  {
    forall k :: Get(stock, k) == NetChange(ledger, k)
  }

  lemma {:induction false} NetChangeConcat(a: seq<LedgerEntry>, b: seq<LedgerEntry>, key: StockKey)
    ensures NetChange(a + b, key) == NetChange(a, key) + NetChange(b, key)
    decreases |b|
  {
    if b == [] {
      assert a + b == a;
    } else {
      var b' := b[..|b| - 1];
      assert (a + b)[..|a + b| - 1] == a + b';
      NetChangeConcat(a, b', key);
    }
  }

  lemma {:induction false} ProductChangeConcat(a: seq<LedgerEntry>, b: seq<LedgerEntry>, product: ProductId)
    ensures ProductChange(a + b, product) == ProductChange(a, product) + ProductChange(b, product)
    decreases |b|
  {
    if b == [] {
      assert a + b == a;
    } else {
      var b' := b[..|b| - 1];
      assert (a + b)[..|a + b| - 1] == a + b';
      ProductChangeConcat(a, b', product);
    }
  }

  lemma {:induction false} CountRefConcat(a: seq<LedgerEntry>, b: seq<LedgerEntry>, ref: Reference)
    ensures CountRef(a + b, ref) == CountRef(a, ref) + CountRef(b, ref)
    decreases |b|
  {
    if b == [] {
      assert a + b == a;
    } else {
      var b' := b[..|b| - 1];
      assert (a + b)[..|a + b| - 1] == a + b';
      CountRefConcat(a, b', ref);
    }
  }

  /** Entries that all carry one reference count fully towards it and not at all towards any other. */
  lemma {:induction false} CountRefUniform(entries: seq<LedgerEntry>, ref: Reference, other: Reference)
    requires forall i :: 0 <= i < |entries| ==> entries[i].ref == ref
    ensures CountRef(entries, ref) == |entries|
    ensures other != ref ==> CountRef(entries, other) == 0
    decreases |entries|
  {
    if entries != [] {
      CountRefUniform(entries[..|entries| - 1], ref, other);
    }
  }

  /** A document no entry refers to has no entries. */
  lemma {:induction false} CountRefAbsent(entries: seq<LedgerEntry>, ref: Reference)
    requires forall i :: 0 <= i < |entries| ==> entries[i].ref != ref
    ensures CountRef(entries, ref) == 0
    decreases |entries|
  {
    if entries != [] {
      CountRefAbsent(entries[..|entries| - 1], ref);
    }
  }

  /** Entries of other stock rows do not move a row's sum. */
  lemma {:induction false} NetChangeAbsent(entries: seq<LedgerEntry>, key: StockKey)
    requires forall i :: 0 <= i < |entries| ==> entries[i].key != key
    ensures NetChange(entries, key) == 0
    decreases |entries|
  {
    if entries != [] {
      NetChangeAbsent(entries[..|entries| - 1], key);
    }
  }

  /** A chained ledger never sums to a negative quantity for any row. */
  lemma {:induction false} ChainedNetNonNegative(ledger: seq<LedgerEntry>, key: StockKey)
    requires Chained(ledger)
    ensures NetChange(ledger, key) >= 0
    decreases |ledger|
  {
    if ledger != [] {
      var n := |ledger| - 1;
      var prefix := ledger[..n];
      assert Chained(prefix) by {
        forall i | 0 <= i < |prefix|
          ensures Sound(prefix[i]) && prefix[i].before == NetChange(prefix[..i], prefix[i].key)
        {
          assert prefix[..i] == ledger[..i];
        }
      }
      if ledger[n].key != key {
        ChainedNetNonNegative(prefix, key);
      }
    }
  }

  /** With a chained ledger, a row's stock derived from it is never negative. */
  lemma ReconstructedNonNegative(stock: map<StockKey, int>, ledger: seq<LedgerEntry>)
    requires Chained(ledger) && Reconstructs(stock, ledger)
    ensures NonNegative(stock)
  {
    forall k | k in stock
      ensures stock[k] >= 0
    {
      ChainedNetNonNegative(ledger, k);
    }
  }

  /** Consecutive entries of the same stock row chain: the later one starts
      where the earlier one ended. */
  lemma ChainedConsecutive(ledger: seq<LedgerEntry>, i: nat, j: nat)
    requires Chained(ledger)
    requires i < j < |ledger| && ledger[i].key == ledger[j].key
    requires forall m :: i < m < j ==> ledger[m].key != ledger[i].key
    ensures ledger[j].before == ledger[i].after
  {
    var key := ledger[i].key;
    var gap := ledger[i + 1..j];
    assert ledger[..j] == ledger[..i + 1] + gap;
    NetChangeConcat(ledger[..i + 1], gap, key);
    forall m | 0 <= m < |gap|
      ensures gap[m].key != key
    {
      assert gap[m] == ledger[i + 1 + m];
    }
    NetChangeAbsent(gap, key);
    assert ledger[..i + 1][..i] == ledger[..i];
  }

  /** Appending a sound entry that starts from its row's sum keeps the ledger chained. */
  lemma ChainedSnoc(ledger: seq<LedgerEntry>, e: LedgerEntry)
    requires Chained(ledger) && Sound(e) && e.before == NetChange(ledger, e.key)
    ensures Chained(ledger + [e])
  {
    var l' := ledger + [e];
    forall i | 0 <= i < |l'|
      ensures Sound(l'[i]) && l'[i].before == NetChange(l'[..i], l'[i].key)
    {
      if i < |ledger| {
        assert l'[..i] == ledger[..i];
      } else {
        assert l'[..i] == ledger;
      }
    }
  }
}
