/** The entities of the warehouse inventory tracker: stock rows, ledger
    entries, movement documents, products, and the database tables that
    hold them. */
module Inventory {

  type ProductId = nat
  type LocationId = nat
  type CategoryId = nat
  type UserId = nat
  type DocId = nat

  datatype Option<+T> = None | Some(value: T)

  /** The errors the movement engine and the controllers report. */
  datatype Error =
    | NotFound                                          // 404 "... not found"
    | AlreadyValidated                                  // 400 "... already validated"
    | CancelledDocument                                 // 400 "Cannot validate cancelled ..."
    | InsufficientStock                                 // thrown by updateStock
    | ShortAtLocation(product: ProductId, location: LocationId) // delivery pre-check
    | ShortAtSource(product: ProductId)                 // transfer pre-check
    | NoActiveLocation                                  // createProduct without a location
    | DuplicateSku                                      // unique violation on products.sku
    | MissingReference                                  // foreign-key violation on insert
    | NoFieldsToUpdate                                  // updateProduct with an empty patch
    | ProductInUse                                      // foreign-key violation on delete

  datatype Result<+T> = Ok(value: T) | Err(error: Error)

  /** The primary key of the stock table. */
  datatype StockKey = StockKey(product: ProductId, location: LocationId)

  /** stock_ledger.movement_type */
  datatype Movement = MoveReceipt | MoveDelivery | MoveTransferOut | MoveTransferIn | MoveAdjustment

  /** stock_ledger.reference_type */
  datatype RefKind = RefReceipt | RefDelivery | RefTransfer | RefStockAdjustment | RefInitialStock

  /** The causing document of a ledger entry: reference_type and reference_id. */
  datatype Reference = Reference(kind: RefKind, id: nat)

  /** stock_ledger.notes; the text the source renders from a document id is
      kept as the id it is rendered from. */
  datatype Note =
    | ReceiptNote(receipt: DocId)
    | DeliveryNote(delivery: DocId)
    | TransferOutNote(transferOut: DocId)
    | TransferInNote(transferIn: DocId)
    | Reason(text: string)
    | InitialStockNote

  /** One row of stock_ledger (its timestamp left out). */
  datatype LedgerEntry = LedgerEntry(
    key: StockKey,
    movement: Movement,
    ref: Reference,
    change: int,
    before: int,
    after: int,
    note: Note,
    user: UserId)

  datatype Status = Draft | Validated | Cancelled

  /** A receipt or delivery line: receipt_items / delivery_items. */
  datatype LineItem = LineItem(product: ProductId, location: LocationId, quantity: int)

  /** A transfer line: transfer_items. */
  datatype TransferItem = TransferItem(product: ProductId, from: LocationId, to: LocationId, quantity: int)

  /** A receipt, delivery or transfer with its lines. */
  datatype Document<I> = Document(status: Status, createdBy: UserId, validatedBy: Option<UserId>, items: seq<I>)

  /** A row of stock_adjustments. */
  datatype Adjustment = Adjustment(
    product: ProductId,
    location: LocationId,
    adjustmentType: string,
    quantity: int,
    reason: string,
    adjustedBy: UserId)

  /** A row of products; description and category are nullable. */
  datatype Product = Product(
    sku: string,
    name: string,
    description: Option<string>,
    category: Option<CategoryId>,
    reorderLevel: int,
    isActive: bool)

  /** The tables the core reads and writes. Locations are only read. */
  datatype Tables = Tables(
    stock: map<StockKey, int>,
    ledger: seq<LedgerEntry>,
    products: map<ProductId, Product>,
    locations: set<LocationId>,
    receipts: map<DocId, Document<LineItem>>,
    deliveries: map<DocId, Document<LineItem>>,
    transfers: map<DocId, Document<TransferItem>>,
    adjustments: map<DocId, Adjustment>)

  /** What an operation returns together with the tables it leaves behind. */
  datatype Transition<T> = Transition(result: Result<T>, tables: Tables)

  /** The quantity of a stock row; a missing row reads as 0. */
  function Get(stock: map<StockKey, int>, key: StockKey): (q: int)
    ensures key in stock ==> q == stock[key]
    ensures key !in stock ==> q == 0
  {
    if key in stock then stock[key] else 0
  }

  /** No stock row holds a negative quantity. */
  ghost predicate NonNegative(stock: map<StockKey, int>)
  {
    forall k :: k in stock ==> stock[k] >= 0
  }

  /** The constraints the request schemas put on line quantities. */
  predicate PositiveLines(items: seq<LineItem>)
  {
    forall i :: 0 <= i < |items| ==> items[i].quantity > 0
  }

  predicate PositiveTransferLines(items: seq<TransferItem>)
  {
    forall i :: 0 <= i < |items| ==> items[i].quantity > 0
  }

  /** Every line names an existing product and location, so its row insert
      passes the foreign-key checks. */
  predicate LinesExist(t: Tables, items: seq<LineItem>)
  {
    forall i :: 0 <= i < |items| ==> items[i].product in t.products && items[i].location in t.locations
  }

  /** Every transfer line names an existing product and existing source and
      destination locations. */
  predicate TransferLinesExist(t: Tables, items: seq<TransferItem>)
  {
    forall i :: 0 <= i < |items| ==>
      items[i].product in t.products && items[i].from in t.locations && items[i].to in t.locations
  }
}
