/**
 * The inventory controller as an object: a product table keyed by internal
 * reference, the append-only ledger, and the identifier counters. Each
 * operation works step by step as the handler does (check, load, compute,
 * save the product, save the entry, commit or abort) and is proved to compute
 * the corresponding function of `Ledger`, so the invariant proved there holds
 * after every call.
 */
module InventoryController {
  import opened Common
  import opened StockTransaction
  import opened ProductModel
  import opened Ledger

  /** Why registering a product failed: a schema validator, or the unique index on `productId`. */
  datatype CreateError = ValidationFailed | DuplicateProductId

  /** Whether some product already carries the identifier `id`. */
  predicate Taken(products: map<ProductRef, Product>, id: Option<string>) {
    exists k :: k in products && products[k].productId == id
  }

  /** The product the schema defaults and the pre-save hook make from `input`, given the counters. */
  function Hooked(input: ProductInput, year: nat, seqs: map<string, nat>): (p: Product)
    ensures HasProductId(p) && p.currentStock == 0
  {
    NewProduct(input).(productId := Some(HookId(NewProduct(input), year, seqs)))
  }

  /** The insert under the unique index on `productId`: a duplicate is refused and nothing changes. */
  function InsertProduct(s: Store, key: ProductRef, p: Product): (o: (Result<ProductRef, CreateError>, Store))
    requires key !in s.products
    ensures o.0.Err? ==> o.0 == Err(DuplicateProductId) && o.1 == s
  {
    if Taken(s.products, p.productId) then (Err(DuplicateProductId), s) else (Ok(key), Register(s, key, p))
  }

  /**
   * An insert fails exactly when the identifier is taken; otherwise the
   * product is stored under the fresh key, nothing else changes, and the
   * invariant is kept.
   */
  lemma InsertProductOutcome(s: Store, key: ProductRef, p: Product)
    requires Invariant(s) && key !in s.products
    requires ValidProduct(p) && HasProductId(p) && p.currentStock == 0
    ensures var o := InsertProduct(s, key, p);
            && (o.0.Err? <==> exists k :: k in s.products && s.products[k].productId == p.productId)
            && (o.0.Ok? ==> o.0.value == key && o.1.products == s.products[key := p] && o.1.ledger == s.ledger)
            && Invariant(o.1)
  {
    if !Taken(s.products, p.productId) {
      RegisterPreservesInvariant(s, key, p);
    }
  }

  class Inventory {
    var products: map<ProductRef, Product>
    var ledger: seq<StockEntry>
    var nextRef: nat
    const ids: ProductIdCounter

    ghost function State(): Store
      reads this
    {
      Store(products, ledger)
    }

    ghost predicate Valid()
      reads this
    {
      && Invariant(State())
      && forall k :: k in products ==> k < nextRef
    }

    constructor ()
      ensures Valid()
      ensures products == map[] && ledger == [] && fresh(ids) && ids.seqs == map[]
    {
      products := map[];
      ledger := [];
      nextRef := 0;
      ids := new ProductIdCounter();
    }

    /**
     * Registering a product: the schema validators run first, then the
     * pre-save hook (which may advance a counter), then the insert, which the
     * unique index on `productId` may refuse. The stock starts at its default 0.
     */
    method CreateProduct(input: ProductInput, year: nat) returns (r: Result<ProductRef, CreateError>)
      requires Valid()
      modifies this, ids
      ensures Valid()
      ensures ledger == old(ledger)
      ensures r.Err? ==> products == old(products)
      ensures !ValidProduct(NewProduct(input)) ==> r == Err(ValidationFailed) && ids.seqs == old(ids.seqs)
      ensures HasProductId(NewProduct(input)) ==> ids.seqs == old(ids.seqs)
      ensures ValidProduct(NewProduct(input)) && !HasProductId(NewProduct(input)) ==>
                var cp := CategoryPart(NewProduct(input).category);
                ids.seqs == old(ids.seqs)[CounterId(cp, year) := SeqOf(old(ids.seqs), CounterId(cp, year)) + 1]
      ensures ValidProduct(NewProduct(input)) ==>
                (r, State()) == InsertProduct(old(State()), old(nextRef), Hooked(input, year, old(ids.seqs)))
      ensures r.Ok? ==> r.value == old(nextRef) && nextRef == old(nextRef) + 1
      ensures r.Err? ==> nextRef == old(nextRef)
    {
      var p := NewProduct(input);
      if !ValidProduct(p) {
        return Err(ValidationFailed);
      }
      ghost var key := CounterId(CategoryPart(p.category), year);
      var q := ids.AssignProductId(p, year);
      assert q == Hooked(input, year, old(ids.seqs));
      ghost var hooked := ids.seqs;
      assert !HasProductId(p) ==> hooked == old(ids.seqs)[key := SeqOf(old(ids.seqs), key) + 1];
      r := Insert(q);
      assert ids.seqs == hooked;
    }

    /** The insert of a hooked product under the next reference. */
    method Insert(q: Product) returns (r: Result<ProductRef, CreateError>)
      requires Valid() && ValidProduct(q) && HasProductId(q) && q.currentStock == 0
      modifies this
      ensures Valid()
      ensures (r, State()) == InsertProduct(old(State()), old(nextRef), q)
      ensures r.Ok? ==> r.value == old(nextRef) && nextRef == old(nextRef) + 1
      ensures r.Err? ==> nextRef == old(nextRef)
    {
      ghost var before := State();
      assert nextRef !in products;
      InsertProductOutcome(before, nextRef, q);
      if Taken(products, q.productId) {
        return Err(DuplicateProductId);
      }
      r := Ok(nextRef);
      products := products[nextRef := q];
      nextRef := nextRef + 1;
      assert State() == InsertProduct(before, old(nextRef), q).1;
    }

    /**
     * `createTxAndUpdateProduct` inside the open transaction: compute the new
     * stock, refuse a negative one, save the product, then save the entry. If
     * the entry is refused the transaction is aborted and the product's saved
     * stock is rolled back.
     */
    method CreateTxAndUpdateProduct(key: ProductRef, kind: TxKind, quantity: int, performer: Option<UserRef>,
                                    notes: BodyField<string>, invoice: Option<Invoice>, unitPrice: Option<int>, now: int)
      returns (r: Result<Receipt, InventoryError>)
      requires key in products && kind != Adjustment
      modifies this
      ensures Outcome(r, State()) == Movement(old(State()), key, kind, quantity, performer, notes, invoice, unitPrice, now)
      ensures nextRef == old(nextRef)
    {
      var qty := Abs(quantity);
      var product := products[key];
      var newStock := if kind == TxKind.Procure then product.currentStock + qty else product.currentStock - qty;
      if newStock < 0 {
        return Err(InsufficientStock);
      }
      var committed := products;
      product := product.(currentStock := newStock);
      products := products[key := product];
      if performer.None? {
        products := committed;
        return Err(EntryRejected);
      }
      var tx := StockEntry(|ledger|, key, kind, qty, unitPrice, newStock, performer.value,
                           Some(SharedRoleSnapshot), DefaultNotes(notes), invoice, now);
      ledger := ledger + [tx];
      r := Ok(Receipt(product, tx));
    }

    /** `procure`: raise a product's stock and record the receipt. */
    method Procure(key: ProductRef, quantity: Option<int>, notes: BodyField<string>, invoice: Option<Invoice>,
                   unitPrice: Option<int>, performer: Option<UserRef>, now: int)
      returns (r: Result<Receipt, InventoryError>)
      requires Valid()
      modifies this
      ensures Valid()
      ensures Outcome(r, State()) == ProcureStock(old(State()), key, quantity, notes, invoice, unitPrice, performer, now)
      ensures nextRef == old(nextRef)
    {
      ProcurePreservesInvariant(State(), key, quantity, notes, invoice, unitPrice, performer, now);
      if quantity.None? || quantity.value <= 0 {
        return Err(QuantityNotPositive);
      }
      if key !in products {
        return Err(ProductNotFound);
      }
      r := CreateTxAndUpdateProduct(key, TxKind.Procure, quantity.value, performer, notes, invoice, unitPrice, now);
    }

    /** `distribute`: lower a product's stock, refusing to go below what is on hand. */
    method Distribute(key: ProductRef, quantity: Option<int>, notes: BodyField<string>, invoice: Option<Invoice>,
                      performer: Option<UserRef>, now: int)
      returns (r: Result<Receipt, InventoryError>)
      requires Valid()
      modifies this
      ensures Valid()
      ensures Outcome(r, State()) == DistributeStock(old(State()), key, quantity, notes, invoice, performer, now)
      ensures nextRef == old(nextRef)
    {
      DistributePreservesInvariant(State(), key, quantity, notes, invoice, performer, now);
      if quantity.None? || quantity.value <= 0 {
        return Err(QuantityNotPositive);
      }
      if key !in products {
        return Err(ProductNotFound);
      }
      if products[key].currentStock < quantity.value {
        return Err(InsufficientStock);
      }
      r := CreateTxAndUpdateProduct(key, TxKind.Distribute, quantity.value, performer, notes, invoice, None, now);
    }

    /** `adjust`: set a product's stock to an absolute value and record the size of the change. */
    method Adjust(key: ProductRef, newStock: Option<int>, notes: Option<string>,
                  performer: Option<UserRef>, role: Option<string>, now: int)
      returns (r: Result<Receipt, InventoryError>)
      requires Valid()
      modifies this
      ensures Valid()
      ensures Outcome(r, State()) == AdjustStock(old(State()), key, newStock, notes, performer, role, now)
      ensures nextRef == old(nextRef)
    {
      ghost var before := State();
      ghost var spec := AdjustStock(before, key, newStock, notes, performer, role, now);
      AdjustPreservesInvariant(before, key, newStock, notes, performer, role, now);
      if newStock.None? || newStock.value < 0 {
        return Err(InvalidNewStock);
      }
      if key !in products {
        return Err(ProductNotFound);
      }
      var product := products[key];
      var qty := Abs(newStock.value - product.currentStock);
      var committed := products;
      product := product.(currentStock := newStock.value);
      products := products[key := product];
      if performer.None? {
        products := committed;
        return Err(EntryRejected);
      }
      var tx := StockEntry(|ledger|, key, Adjustment, qty, None, newStock.value, performer.value,
                           role, notes, None, now);
      ledger := ledger + [tx];
      r := Ok(Receipt(product, tx));
      assert spec.result == r && spec.store == State();
    }
  }
}
