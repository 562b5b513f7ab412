/** The product controller: creating a product, optionally with an initial
    stock written straight into one row and the ledger; updating the
    fields a request supplies; and deleting a product no record refers to. */
module Products {
  import opened Inventory
  import opened Ledger
  import opened Integrity
  import opened Db

  /** A product id the database has just generated: no product and no
      stock row carries it yet. */
  predicate FreshProduct(t: Tables, id: ProductId)
  {
    id !in t.products && forall k :: k in t.stock ==> k.product != id
  }

  /** Some product already has this SKU. */
  predicate SkuTaken(t: Tables, sku: string)
  {
    exists p | p in t.products :: t.products[p].sku == sku
  }

  /** `description || null`: an empty description is stored as null. */
  function StoredDescription(description: Option<string>): (d: Option<string>)
    ensures d.Some? ==> d == description && d.value != ""
    ensures description.Some? && description.value != "" ==> d == description
  {
    if description == Some("") then None else description
  }

  /** The ledger entry recording a new product's initial stock. */
  function InitialEntry(id: ProductId, location: LocationId, stock: int, user: UserId): LedgerEntry
  {
    LedgerEntry(StockKey(id, location), MoveAdjustment, Reference(RefInitialStock, id), stock, 0, stock, InitialStockNote, user)
  }

  /** createProduct as a transition. A taken SKU is refused. Otherwise the
      product is inserted, active, and when `stock` is positive the
      quantity is written to its row at `location` (the first active
      location, none when there is none) together with one 'initial_stock'
      entry from 0; without a location nothing is created. */
  function Creation(t: Tables, id: ProductId, sku: string, name: string, description: Option<string>,
                    category: Option<CategoryId>, reorderLevel: int, stock: int, location: Option<LocationId>,
                    user: UserId): (r: Transition<ProductId>)
    requires FreshProduct(t, id)
    ensures r.result.Err? ==> r.tables == t
    ensures r.result.Ok? <==> !SkuTaken(t, sku) && (stock > 0 ==> location.Some?)
    ensures r.result.Ok? ==> r.result.value == id && id in r.tables.products && r.tables.products[id].sku == sku
  {
    if SkuTaken(t, sku) then Transition(Err(DuplicateSku), t)
    else
      var product := Product(sku, name, StoredDescription(description), category, reorderLevel, true);
      if stock > 0 then
        match location
        case None => Transition(Err(NoActiveLocation), t)
        case Some(l) =>
          Transition(Ok(id), t.(products := t.products[id := product], stock := t.stock[StockKey(id, l) := stock],
                                ledger := t.ledger + [InitialEntry(id, l, stock, user)]))
      else Transition(Ok(id), t.(products := t.products[id := product]))
  }

  /** createProduct: insert the product, then, for a positive stock, the
      stock row and the ledger entry; roll back when the SKU is taken or no
      location is available. */
  method CreateProduct(db: Database, id: ProductId, sku: string, name: string, description: Option<string>,
                       category: Option<CategoryId>, reorderLevel: int, stock: int, location: Option<LocationId>,
                       user: UserId) returns (r: Result<ProductId>)
    requires db.Valid() && db.Idle()
    requires FreshProduct(db.Current(), id)
    requires stock >= 0 && reorderLevel >= 0
    requires location.Some? ==> location.value in db.locations
    modifies db
    ensures db.Valid() && db.Idle()
    ensures Transition(r, db.Current()) ==
      Creation(old(db.Current()), id, sku, name, description, category, reorderLevel, stock, location, user)
  {
    if exists p | p in db.products :: db.products[p].sku == sku {
      db.Rollback();
      return Err(DuplicateSku);
    }
    db.products := db.products[id := Product(sku, name, StoredDescription(description), category, reorderLevel, true)];
    if stock > 0 {
      if location.None? {
        db.Rollback();
        return Err(NoActiveLocation);
      }
      var l := location.value;
      db.stock := db.stock[StockKey(id, l) := stock];
      db.ledger := db.ledger + [InitialEntry(id, l, stock, user)];
    }
    CreationKeepsConsistent(old(db.Current()), id, sku, name, description, category, reorderLevel, stock, location, user);
    db.Commit();
    return Ok(id);
  }

  /** One SET clause of updateProduct's statement. */
  datatype Field =
    | SetName(name: string)
    | SetDescription(description: Option<string>)
    | SetCategory(category: Option<CategoryId>)
    | SetReorderLevel(reorderLevel: int)
    | SetActive(isActive: bool)

  function Assign(p: Product, f: Field): Product
  {
    match f
    case SetName(n) => p.(name := n)
    case SetDescription(d) => p.(description := d)
    case SetCategory(c) => p.(category := c)
    case SetReorderLevel(l) => p.(reorderLevel := l)
    case SetActive(a) => p.(isActive := a)
  }

  /** The row after its SET clauses, applied in order. */
  function AssignAll(p: Product, fields: seq<Field>): Product
  {
    if fields == [] then p else Assign(AssignAll(p, fields[..|fields| - 1]), fields[|fields| - 1])
  }

  /** The SET clauses updateProduct builds: one per supplied field, in the
      order name, description, category, reorder level, active. An absent
      field is None; a field supplied as null is Some(None). */
  function Clauses(name: Option<string>, description: Option<Option<string>>, category: Option<Option<CategoryId>>,
                   reorderLevel: Option<int>, isActive: Option<bool>): (fields: seq<Field>)
    ensures |fields| == 0 <==> name.None? && description.None? && category.None? && reorderLevel.None? && isActive.None?
    ensures |fields| <= 5
  {
    Clause(name, n => SetName(n)) + Clause(description, d => SetDescription(d)) + Clause(category, c => SetCategory(c))
    + Clause(reorderLevel, l => SetReorderLevel(l)) + Clause(isActive, a => SetActive(a))
  }

  /** The clause for one field: none when the field is absent. */
  function Clause<T>(value: Option<T>, clause: T -> Field): (fields: seq<Field>)
    ensures |fields| == if value.Some? then 1 else 0
  {
    if value.Some? then [clause(value.value)] else []
  }

  /** The field-wise reading of a patch: each supplied field takes its new
      value and every other field keeps its old one. */
  function Patched(p: Product, name: Option<string>, description: Option<Option<string>>,
                   category: Option<Option<CategoryId>>, reorderLevel: Option<int>, isActive: Option<bool>): Product
  {
    Product(p.sku,
            if name.Some? then name.value else p.name,
            if description.Some? then description.value else p.description,
            if category.Some? then category.value else p.category,
            if reorderLevel.Some? then reorderLevel.value else p.reorderLevel,
            if isActive.Some? then isActive.value else p.isActive)
  }

  /** updateProduct as a transition: an empty patch is refused before the
      product is looked up; an unknown id is not found; otherwise the row
      becomes the result of its SET clauses. */
  function Update(t: Tables, id: ProductId, name: Option<string>, description: Option<Option<string>>,
                  category: Option<Option<CategoryId>>, reorderLevel: Option<int>, isActive: Option<bool>): (r: Transition<Product>)
    ensures r.result.Err? ==> r.tables == t
    ensures r.result.Ok? ==> id in t.products && r.tables == t.(products := t.products[id := r.result.value])
  {
    var fields := Clauses(name, description, category, reorderLevel, isActive);
    if |fields| == 0 then Transition(Err(NoFieldsToUpdate), t)
    else if id !in t.products then Transition(Err(NotFound), t)
    else
      var p := AssignAll(t.products[id], fields);
      Transition(Ok(p), t.(products := t.products[id := p]))
  }

  /** updateProduct: collect one SET clause per supplied field, refuse an
      empty list, then update the row in one statement outside any
      transaction. */
  method UpdateProduct(db: Database, id: ProductId, name: Option<string>, description: Option<Option<string>>,
                       category: Option<Option<CategoryId>>, reorderLevel: Option<int>, isActive: Option<bool>)
    returns (r: Result<Product>)
    requires db.Valid() && db.Idle()
    modifies db
    ensures db.Valid() && db.Idle()
    ensures Transition(r, db.Current()) == Update(old(db.Current()), id, name, description, category, reorderLevel, isActive)
  {
    var fields: seq<Field> := [];
    if name.Some? {
      fields := fields + [SetName(name.value)];
    }
    assert fields == Clause(name, n => SetName(n));
    ghost var supplied := fields;
    if description.Some? {
      fields := fields + [SetDescription(description.value)];
    }
    assert fields == supplied + Clause(description, d => SetDescription(d));
    supplied := fields;
    if category.Some? {
      fields := fields + [SetCategory(category.value)];
    }
    assert fields == supplied + Clause(category, c => SetCategory(c));
    supplied := fields;
    if reorderLevel.Some? {
      fields := fields + [SetReorderLevel(reorderLevel.value)];
    }
    assert fields == supplied + Clause(reorderLevel, l => SetReorderLevel(l));
    supplied := fields;
    if isActive.Some? {
      fields := fields + [SetActive(isActive.value)];
    }
    assert fields == supplied + Clause(isActive, a => SetActive(a));
    assert fields == Clauses(name, description, category, reorderLevel, isActive);
    if |fields| == 0 {
      return Err(NoFieldsToUpdate);
    }
    if id !in db.products {
      return Err(NotFound);
    }
    var updated := AssignAll(db.products[id], fields);
    db.products := db.products[id := updated];
    UpdateKeepsConsistent(old(db.Current()), id, name, description, category, reorderLevel, isActive);
    db.Commit();
    return Ok(updated);
  }

  /** Some row of stock, the ledger, a document's lines or an adjustment
      refers to the product, so its DELETE violates a foreign key. */
  predicate InUse(t: Tables, id: ProductId)
  {
    || (exists k | k in t.stock :: k.product == id)
    || (exists i | 0 <= i < |t.ledger| :: t.ledger[i].key.product == id)
    || (exists d | d in t.receipts :: exists i | 0 <= i < |t.receipts[d].items| :: t.receipts[d].items[i].product == id)
    || (exists d | d in t.deliveries :: exists i | 0 <= i < |t.deliveries[d].items| :: t.deliveries[d].items[i].product == id)
    || (exists d | d in t.transfers :: exists i | 0 <= i < |t.transfers[d].items| :: t.transfers[d].items[i].product == id)
    || (exists d | d in t.adjustments :: t.adjustments[d].product == id)
  }

  /** deleteProduct as a transition: an unknown id is not found, a product
      still referred to is refused, and otherwise the row goes. */
  function Deletion(t: Tables, id: ProductId): (r: Transition<()>)
    ensures r.result.Err? ==> r.tables == t
    ensures r.result.Ok? <==> id in t.products && !InUse(t, id)
    ensures r.result.Ok? ==> r.tables == t.(products := t.products - {id})
  {
    if id !in t.products then Transition(Err(NotFound), t)
    else if InUse(t, id) then Transition(Err(ProductInUse), t)
    else Transition(Ok(()), t.(products := t.products - {id}))
  }

  /** deleteProduct: one DELETE outside any transaction, refused by the
      foreign keys while anything refers to the product. */
  method DeleteProduct(db: Database, id: ProductId) returns (r: Result<()>)
    requires db.Valid() && db.Idle()
    modifies db
    ensures db.Valid() && db.Idle()
    ensures Transition(r, db.Current()) == Deletion(old(db.Current()), id)
  {
    if id !in db.products {
      return Err(NotFound);
    }
    if InUse(db.Current(), id) {
      return Err(ProductInUse);
    }
    db.products := db.products - {id};
    DeletionKeepsConsistent(old(db.Current()), id);
    db.Commit();
    return Ok(());
  }

  // ---------------------------------------------------------------------
  // What the transitions promise

  /** A product created with positive stock has exactly that quantity at
      the chosen location, and the ledger gained one 'adjustment' entry of
      reference 'initial_stock' naming the product, from 0 to the quantity;
      created without stock, no stock row and no entry appear. */
  lemma CreationEffect(t: Tables, id: ProductId, sku: string, name: string, description: Option<string>,
                       category: Option<CategoryId>, reorderLevel: int, stock: int, location: Option<LocationId>,
                       user: UserId)
    requires Consistent(t) && FreshProduct(t, id)
    requires Creation(t, id, sku, name, description, category, reorderLevel, stock, location, user).result.Ok?
    ensures var t' := Creation(t, id, sku, name, description, category, reorderLevel, stock, location, user).tables;
      && (stock > 0 ==>
            var key := StockKey(id, location.value);
            && Get(t'.stock, key) == stock && NetChange(t'.ledger, key) == stock
            && |t'.ledger| == |t.ledger| + 1
            && var e := t'.ledger[|t.ledger|];
            && e.movement == MoveAdjustment && e.ref == Reference(RefInitialStock, id)
            && e.change == stock && e.before == 0 && e.after == stock)
      && (stock <= 0 ==> t'.stock == t.stock && t'.ledger == t.ledger)
  {
    if stock > 0 {
      var key := StockKey(id, location.value);
      var t' := Creation(t, id, sku, name, description, category, reorderLevel, stock, location, user).tables;
      NoEntriesOfFresh(t, id, key);
      assert (t.ledger + [InitialEntry(id, location.value, stock, user)])[..|t.ledger|] == t.ledger;
    }
  }

  /** A product no row refers to has no ledger sum at any of its rows. */
  lemma NoEntriesOfFresh(t: Tables, id: ProductId, key: StockKey)
    requires ProductsReferenced(t) && id !in t.products && key.product == id
    ensures NetChange(t.ledger, key) == 0
  {
    forall i | 0 <= i < |t.ledger|
      ensures t.ledger[i].key != key
    {
    }
    NetChangeAbsent(t.ledger, key);
  }

  /** Creating a product keeps the tables consistent: the initial entry
      starts from the row's (empty) ledger sum, the stock row equals the
      entry's after, and the entry is the product's only initial-stock entry. */
  lemma CreationKeepsConsistent(t: Tables, id: ProductId, sku: string, name: string, description: Option<string>,
                                category: Option<CategoryId>, reorderLevel: int, stock: int, location: Option<LocationId>,
                                user: UserId)
    requires Consistent(t) && FreshProduct(t, id)
    ensures Consistent(Creation(t, id, sku, name, description, category, reorderLevel, stock, location, user).tables)
  {
    var r := Creation(t, id, sku, name, description, category, reorderLevel, stock, location, user);
    if r.result.Ok? {
      var product := Product(sku, name, StoredDescription(description), category, reorderLevel, true);
      if stock > 0 {
        InitialStockConsistent(t, id, product, location.value, stock, user);
      } else {
        NewProductConsistent(t, id, product);
      }
    }
  }

  lemma NewProductConsistent(t: Tables, id: ProductId, product: Product)
    requires Consistent(t) && id !in t.products
    ensures Consistent(t.(products := t.products[id := product]))
  {
    var t' := t.(products := t.products[id := product]);
    forall i | 0 <= i < |t.ledger|
      ensures Documented(t', t.ledger[i])
    {
      assert Documented(t, t.ledger[i]);
    }
    forall p | p in t'.products
      ensures CountRef(t'.ledger, Reference(RefInitialStock, p)) <= 1
    {
      if p == id {
        forall i | 0 <= i < |t.ledger|
          ensures t.ledger[i].ref != Reference(RefInitialStock, id)
        {
          assert Documented(t, t.ledger[i]);
        }
        CountRefAbsent(t.ledger, Reference(RefInitialStock, id));
      }
    }
    forall d | d in t.receipts
      ensures LinesKnown(t.receipts[d].items, t'.products)
    {
      assert LinesKnown(t.receipts[d].items, t.products);
    }
    forall d | d in t.deliveries
      ensures LinesKnown(t.deliveries[d].items, t'.products)
    {
      assert LinesKnown(t.deliveries[d].items, t.products);
    }
    forall d | d in t.transfers
      ensures TransferLinesKnown(t.transfers[d].items, t'.products)
    {
      assert TransferLinesKnown(t.transfers[d].items, t.products);
    }
  }

  lemma InitialStockConsistent(t: Tables, id: ProductId, product: Product, location: LocationId, stock: int, user: UserId)
    requires Consistent(t) && FreshProduct(t, id) && stock > 0
    ensures var key := StockKey(id, location);
      Consistent(t.(products := t.products[id := product], stock := t.stock[key := stock],
                    ledger := t.ledger + [InitialEntry(id, location, stock, user)]))
  {
    var key := StockKey(id, location);
    var e := InitialEntry(id, location, stock, user);
    var t1 := t.(products := t.products[id := product]);
    NewProductConsistent(t, id, product);
    NoEntriesOfFresh(t, id, key);
    InitialEntrySums(t1.stock, t1.ledger, e);
    forall i | 0 <= i < |t.ledger|
      ensures t.ledger[i].ref != e.ref
    {
      assert Documented(t, t.ledger[i]);
    }
    InitialEntryTraced(t1, e, t.stock[key := stock]);
    InitialEntryReferenced(t1, e, t.stock[key := stock]);
  }

  /** An entry from 0 at a row whose ledger sum is 0 keeps the ledger
      chained and summing to the stock once the row holds its after. */
  lemma InitialEntrySums(stock: map<StockKey, int>, ledger: seq<LedgerEntry>, e: LedgerEntry)
    requires Chained(ledger) && Reconstructs(stock, ledger)
    requires NetChange(ledger, e.key) == 0 && e.before == 0 && Sound(e)
    ensures Chained(ledger + [e]) && Reconstructs(stock[e.key := e.after], ledger + [e])
  {
    ChainedSnoc(ledger, e);
    forall k
      ensures Get(stock[e.key := e.after], k) == NetChange(ledger + [e], k)
    {
      assert (ledger + [e])[..|ledger|] == ledger;
    }
  }

  /** The first initial-stock entry of an existing product keeps every count right. */
  lemma InitialEntryTraced(t: Tables, e: LedgerEntry, stock: map<StockKey, int>)
    requires Traceable(t)
    requires e.ref == Reference(RefInitialStock, e.key.product) && e.key.product in t.products
    requires forall i :: 0 <= i < |t.ledger| ==> t.ledger[i].ref != e.ref
    ensures Traceable(t.(stock := stock, ledger := t.ledger + [e]))
  {
    var t' := t.(stock := stock, ledger := t.ledger + [e]);
    CountRefAbsent(t.ledger, e.ref);
    OtherDocsTraced(t.receipts, t.ledger, [e], RefReceipt, 1, e.ref);
    OtherDocsTraced(t.deliveries, t.ledger, [e], RefDelivery, 1, e.ref);
    OtherDocsTraced(t.transfers, t.ledger, [e], RefTransfer, 2, e.ref);
    CountAfterAppend(t.ledger, [e], e.ref);
    forall i | 0 <= i < |t'.ledger|
      ensures Documented(t', t'.ledger[i])
    {
      if i < |t.ledger| {
        assert Documented(t, t.ledger[i]);
      }
    }
  }

  /** An entry of an existing product keeps the foreign keys. */
  lemma InitialEntryReferenced(t: Tables, e: LedgerEntry, stock: map<StockKey, int>)
    requires ProductsReferenced(t) && e.key.product in t.products
    ensures ProductsReferenced(t.(stock := stock, ledger := t.ledger + [e]))
  {
    var t' := t.(stock := stock, ledger := t.ledger + [e]);
    forall i | 0 <= i < |t'.ledger|
      ensures t'.ledger[i].key.product in t'.products
    {
      if i < |t.ledger| {
        assert t'.ledger[i] == t.ledger[i];
      }
    }
  }

  /** Applying the SET clauses a patch yields changes exactly the supplied
      fields: the row's SET clauses and the field-wise reading agree. */
  lemma ClausesPatch(p: Product, name: Option<string>, description: Option<Option<string>>,
                     category: Option<Option<CategoryId>>, reorderLevel: Option<int>, isActive: Option<bool>)
    ensures AssignAll(p, Clauses(name, description, category, reorderLevel, isActive)) ==
      Patched(p, name, description, category, reorderLevel, isActive)
  {
    var n := Clause(name, n => SetName(n));
    var d := Clause(description, d => SetDescription(d));
    var c := Clause(category, c => SetCategory(c));
    var l := Clause(reorderLevel, l => SetReorderLevel(l));
    var a := Clause(isActive, a => SetActive(a));
    AssignClause(p, name, n => SetName(n));
    var p1 := AssignAll(p, n);
    AssignAllConcat(p, n, d);
    AssignClause(p1, description, d => SetDescription(d));
    var p2 := AssignAll(p, n + d);
    AssignAllConcat(p, n + d, c);
    AssignClause(p2, category, c => SetCategory(c));
    var p3 := AssignAll(p, n + d + c);
    AssignAllConcat(p, n + d + c, l);
    AssignClause(p3, reorderLevel, l => SetReorderLevel(l));
    var p4 := AssignAll(p, n + d + c + l);
    AssignAllConcat(p, n + d + c + l, a);
    AssignClause(p4, isActive, a => SetActive(a));
  }

  /** The clause of an absent field leaves the row alone; that of a
      supplied field assigns it. */
  lemma AssignClause<T>(p: Product, value: Option<T>, clause: T -> Field)
    ensures AssignAll(p, Clause(value, clause)) == if value.Some? then Assign(p, clause(value.value)) else p
  {
    if value.Some? {
      assert [clause(value.value)][..0] == [];
    }
  }

  /** Applying two lists of clauses is applying the first, then the second. */
  lemma {:induction false} AssignAllConcat(p: Product, a: seq<Field>, b: seq<Field>)
    ensures AssignAll(p, a + b) == AssignAll(AssignAll(p, a), b)
    decreases |b|
  {
    if b == [] {
      assert a + b == a;
    } else {
      assert (a + b)[..|a + b| - 1] == a + b[..|b| - 1];
      AssignAllConcat(p, a, b[..|b| - 1]);
    }
  }

  /** updateProduct changes only the supplied fields of the one product, and never its SKU. */
  lemma UpdateOnlySupplied(t: Tables, id: ProductId, name: Option<string>, description: Option<Option<string>>,
                           category: Option<Option<CategoryId>>, reorderLevel: Option<int>, isActive: Option<bool>)
    requires Update(t, id, name, description, category, reorderLevel, isActive).result.Ok?
    ensures var p, q := t.products[id], Update(t, id, name, description, category, reorderLevel, isActive).result.value;
      && q.sku == p.sku
      && (name.None? ==> q.name == p.name) && (name.Some? ==> q.name == name.value)
      && (description.None? ==> q.description == p.description) && (description.Some? ==> q.description == description.value)
      && (category.None? ==> q.category == p.category) && (category.Some? ==> q.category == category.value)
      && (reorderLevel.None? ==> q.reorderLevel == p.reorderLevel) && (reorderLevel.Some? ==> q.reorderLevel == reorderLevel.value)
      && (isActive.None? ==> q.isActive == p.isActive) && (isActive.Some? ==> q.isActive == isActive.value)
  {
    ClausesPatch(t.products[id], name, description, category, reorderLevel, isActive);
  }

  /** An empty patch is refused as such, whether or not the product exists,
      and a non-empty patch of an unknown product is not found. */
  lemma UpdateRefusals(t: Tables, id: ProductId, name: Option<string>, description: Option<Option<string>>,
                       category: Option<Option<CategoryId>>, reorderLevel: Option<int>, isActive: Option<bool>)
    ensures var r := Update(t, id, name, description, category, reorderLevel, isActive);
      && (name.None? && description.None? && category.None? && reorderLevel.None? && isActive.None? ==>
            r == Transition(Err(NoFieldsToUpdate), t))
      && (!(name.None? && description.None? && category.None? && reorderLevel.None? && isActive.None?) && id !in t.products ==>
            r == Transition(Err(NotFound), t))
  {
  }

  lemma UpdateKeepsConsistent(t: Tables, id: ProductId, name: Option<string>, description: Option<Option<string>>,
                              category: Option<Option<CategoryId>>, reorderLevel: Option<int>, isActive: Option<bool>)
    requires Consistent(t)
    ensures Consistent(Update(t, id, name, description, category, reorderLevel, isActive).tables)
  {
    var r := Update(t, id, name, description, category, reorderLevel, isActive);
    if r.result.Ok? {
      SameProductsConsistent(t, r.tables.products);
    }
  }

  /** Replacing product rows while keeping the set of ids keeps the tables consistent. */
  lemma SameProductsConsistent(t: Tables, products: map<ProductId, Product>)
    requires Consistent(t) && products.Keys == t.products.Keys
    ensures Consistent(t.(products := products))
  {
    var t' := t.(products := products);
    forall i | 0 <= i < |t.ledger|
      ensures Documented(t', t.ledger[i])
    {
      assert Documented(t, t.ledger[i]);
    }
    forall d | d in t.receipts
      ensures LinesKnown(t.receipts[d].items, products)
    {
      assert LinesKnown(t.receipts[d].items, t.products);
    }
    forall d | d in t.deliveries
      ensures LinesKnown(t.deliveries[d].items, products)
    {
      assert LinesKnown(t.deliveries[d].items, t.products);
    }
    forall d | d in t.transfers
      ensures TransferLinesKnown(t.transfers[d].items, products)
    {
      assert TransferLinesKnown(t.transfers[d].items, t.products);
    }
  }

  /** A product that has a stock row or a ledger entry is never deleted. */
  lemma DeleteReferencedRefused(t: Tables, id: ProductId)
    requires id in t.products
    requires (exists k :: k in t.stock && k.product == id) || (exists i :: 0 <= i < |t.ledger| && t.ledger[i].key.product == id)
    ensures Deletion(t, id) == Transition(Err(ProductInUse), t)
    ensures id in Deletion(t, id).tables.products
  {
  }

  /** A product created with initial stock can no longer be deleted. */
  lemma StockedProductNotDeletable(t: Tables, id: ProductId, sku: string, name: string, description: Option<string>,
                                   category: Option<CategoryId>, reorderLevel: int, stock: int, location: Option<LocationId>,
                                   user: UserId)
    requires FreshProduct(t, id) && stock > 0
    requires Creation(t, id, sku, name, description, category, reorderLevel, stock, location, user).result.Ok?
    ensures var t' := Creation(t, id, sku, name, description, category, reorderLevel, stock, location, user).tables;
      Deletion(t', id).result == Err(ProductInUse)
  {
    var t' := Creation(t, id, sku, name, description, category, reorderLevel, stock, location, user).tables;
    assert StockKey(id, location.value) in t'.stock;
  }

  /** Deleting an unreferenced product keeps the tables consistent: nothing
      referred to it, so every foreign key still holds. */
  lemma DeletionKeepsConsistent(t: Tables, id: ProductId)
    requires Consistent(t)
    ensures Consistent(Deletion(t, id).tables)
  {
    var r := Deletion(t, id);
    if r.result.Ok? {
      var t' := r.tables;
      forall i | 0 <= i < |t.ledger|
        ensures Documented(t', t.ledger[i]) && t.ledger[i].key.product in t'.products
      {
        assert Documented(t, t.ledger[i]);
      }
      forall d | d in t.receipts
        ensures LinesKnown(t.receipts[d].items, t'.products)
      {
        assert LinesKnown(t.receipts[d].items, t.products);
      }
      forall d | d in t.deliveries
        ensures LinesKnown(t.deliveries[d].items, t'.products)
      {
        assert LinesKnown(t.deliveries[d].items, t.products);
      }
      forall d | d in t.transfers
        ensures TransferLinesKnown(t.transfers[d].items, t'.products)
      {
        assert TransferLinesKnown(t.transfers[d].items, t.products);
      }
    }
  }
}
