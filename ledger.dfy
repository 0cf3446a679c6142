/**
 * The inventory mutation protocol as functions on a store value: a product
 * table and the append-only ledger. Each operation either succeeds, changing
 * one product's stock and appending exactly one entry, or fails and leaves the
 * store exactly as it was (the aborted transaction). The class in
 * `InventoryController` is proved to compute these functions.
 */
module Ledger {
  import opened Common
  import opened StockTransaction
  import opened ProductModel

  datatype Store = Store(products: map<ProductRef, Product>, ledger: seq<StockEntry>)

  /** The `{ product, tx }` pair a successful operation returns. */
  datatype Receipt = Receipt(product: Product, tx: StockEntry)

  datatype InventoryError =
    | QuantityNotPositive
    | ProductNotFound
    | InsufficientStock
    | InvalidNewStock
    | EntryRejected

  /** The `message` of the 400 response for each error. */
  function Message(e: InventoryError): string {
    match e
    case QuantityNotPositive => "Quantity must be > 0"
    case ProductNotFound => "Product not found"
    case InsufficientStock => "Insufficient stock"
    case InvalidNewStock => "Invalid newStock"
    case EntryRejected => "StockTransaction validation failed: performedBy: Path `performedBy` is required."
  }

  datatype Outcome = Outcome(result: Result<Receipt, InventoryError>, store: Store)

  /** The role recorded by procure and distribute, whoever the caller is. */
  const SharedRoleSnapshot: string := "adminOrUser"

  // ---------------------------------------------------------------------------
  // What the ledger says about a product

  /**
   * The stock level the ledger records for `k`: the `balanceAfter` of its
   * newest entry, or 0, the stock of a newly registered product, when it has none.
   */
  function BalanceOf(l: seq<StockEntry>, k: ProductRef): int {
    if l == [] then 0
    else if l[|l| - 1].product == k then l[|l| - 1].balanceAfter
    else BalanceOf(l[..|l| - 1], k)
  }

  lemma BalanceOfAppend(l: seq<StockEntry>, e: StockEntry, k: ProductRef)
    ensures BalanceOf(l + [e], k) == if e.product == k then e.balanceAfter else BalanceOf(l, k)
  {
    assert (l + [e])[..|l|] == l;
  }

  /** A product no entry refers to has the baseline balance 0. */
  lemma {:induction false} BalanceOfUnreferenced(l: seq<StockEntry>, k: ProductRef)
    requires forall i :: 0 <= i < |l| ==> l[i].product != k
    ensures BalanceOf(l, k) == 0
  {
    if l != [] {
      BalanceOfUnreferenced(l[..|l| - 1], k);
    }
  }

  /** Entry `e` is a correct record of a change from stock level `prev`. */
  predicate Follows(prev: int, e: StockEntry) {
    && WellFormed(e)
    && match e.kind
       case Procure => e.balanceAfter == prev + e.quantity
       case Distribute => e.balanceAfter == prev - e.quantity
       case Adjustment => e.quantity == Abs(e.balanceAfter - prev)
  }

  /** The unique index on `productId`. */
  ghost predicate UniqueProductIds(products: map<ProductRef, Product>) {
    forall k, k' :: k in products && k' in products && k != k' ==> products[k].productId != products[k'].productId
  }

  /**
   * The ledger invariant: every product is valid (stock never negative) and has
   * its identifier, its stock is the balance its newest entry records, and
   * every entry is a correct record of the change from the balance before it.
   */
  ghost predicate Invariant(s: Store) {
    && (forall k :: k in s.products ==> ValidProduct(s.products[k]) && HasProductId(s.products[k]))
    && (forall k :: k in s.products ==> s.products[k].currentStock == BalanceOf(s.ledger, k))
    && UniqueProductIds(s.products)
    && (forall i :: 0 <= i < |s.ledger| ==> s.ledger[i].txId == i && s.ledger[i].product in s.products)
    && (forall i :: 0 <= i < |s.ledger| ==> Follows(BalanceOf(s.ledger[..i], s.ledger[i].product), s.ledger[i]))
  }

  /**
   * `o` is a successful operation on `key`: only that product's stock changed,
   * exactly one entry for it was appended, and the new stock is that entry's
   * `balanceAfter`.
   */
  ghost predicate AppendedOne(s: Store, key: ProductRef, o: Outcome)
    requires key in s.products && o.result.Ok?
  {
    var r := o.result.value;
    && r.product == s.products[key].(currentStock := r.product.currentStock)
    && o.store.products == s.products[key := r.product]
    && o.store.ledger == s.ledger + [r.tx]
    && r.tx.product == key
    && r.tx.txId == |s.ledger|
    && r.tx.balanceAfter == r.product.currentStock
  }

  // ---------------------------------------------------------------------------
  // The three operations

  /**
   * The `notes = ""` default parameter of `createTxAndUpdateProduct`: only a
   * field left out of the body takes the default; one sent as `null` is
   * passed on and stored as null.
   */
  function DefaultNotes(notes: BodyField<string>): Option<string>
  {
    match notes
    case Undefined => Some("")
    case Null => None
    case Given(v) => Some(v)
  }

  /**
   * `createTxAndUpdateProduct` on a loaded product: stock goes up by |quantity|
   * for procure and down by it otherwise; a negative result fails. The product
   * is saved first and the entry second, so an entry that fails validation
   * (no performer) aborts the whole transaction.
   */
  function Movement(s: Store, key: ProductRef, kind: TxKind, quantity: int, performer: Option<UserRef>,
                    notes: BodyField<string>, invoice: Option<Invoice>, unitPrice: Option<int>, now: int): (o: Outcome)
    requires key in s.products && kind != Adjustment
    ensures o.result.Err? ==> o.store == s
    ensures o.result.Ok? ==> AppendedOne(s, key, o)
    ensures var newStock := if kind == Procure then s.products[key].currentStock + Abs(quantity)
                            else s.products[key].currentStock - Abs(quantity);
            && (o.result == Err(InsufficientStock) <==> newStock < 0)
            && (o.result == Err(EntryRejected) <==> newStock >= 0 && performer.None?)
            && (o.result.Ok? <==> newStock >= 0 && performer.Some?)
            && (o.result.Ok? ==>
                  var tx := o.result.value.tx;
                  && o.result.value.product.currentStock == newStock
                  && tx.kind == kind && tx.quantity == Abs(quantity) && tx.unitPrice == unitPrice
                  && tx.performedBy == performer.value && tx.roleSnapshot == Some(SharedRoleSnapshot)
                  && tx.notes == DefaultNotes(notes) && tx.invoice == invoice && tx.createdAt == now)
  {
    var qty := Abs(quantity);
    var product := s.products[key];
    var newStock := if kind == Procure then product.currentStock + qty else product.currentStock - qty;
    if newStock < 0 then Outcome(Err(InsufficientStock), s)
    else if performer.None? then Outcome(Err(EntryRejected), s)
    else
      var updated := product.(currentStock := newStock);
      var tx := StockEntry(|s.ledger|, key, kind, qty, unitPrice, newStock, performer.value,
                           Some(SharedRoleSnapshot), DefaultNotes(notes), invoice, now);
      Outcome(Ok(Receipt(updated, tx)), Store(s.products[key := updated], s.ledger + [tx]))
  }

  /** `procure`: the quantity is checked before the product is looked up. */
  function ProcureStock(s: Store, key: ProductRef, quantity: Option<int>, notes: BodyField<string>, invoice: Option<Invoice>,
                   unitPrice: Option<int>, performer: Option<UserRef>, now: int): (o: Outcome)
    ensures o.result.Err? ==> o.store == s
    ensures o.result.Ok? ==> key in s.products && AppendedOne(s, key, o)
  {
    if quantity.None? || quantity.value <= 0 then Outcome(Err(QuantityNotPositive), s)
    else if key !in s.products then Outcome(Err(ProductNotFound), s)
    else Movement(s, key, Procure, quantity.value, performer, notes, invoice, unitPrice, now)
  }

  /** `distribute`: quantity, then lookup, then the stock check; no unit price is recorded. */
  function DistributeStock(s: Store, key: ProductRef, quantity: Option<int>, notes: BodyField<string>, invoice: Option<Invoice>,
                      performer: Option<UserRef>, now: int): (o: Outcome)
    ensures o.result.Err? ==> o.store == s
    ensures o.result.Ok? ==> key in s.products && AppendedOne(s, key, o)
  {
    if quantity.None? || quantity.value <= 0 then Outcome(Err(QuantityNotPositive), s)
    else if key !in s.products then Outcome(Err(ProductNotFound), s)
    else if s.products[key].currentStock < quantity.value then Outcome(Err(InsufficientStock), s)
    else Movement(s, key, Distribute, quantity.value, performer, notes, invoice, None, now)
  }

  /**
   * `adjust`: set the stock to `newStock` and record the size of the change;
   * the entry carries the caller's own role and the notes as sent.
   */
  function AdjustStock(s: Store, key: ProductRef, newStock: Option<int>, notes: Option<string>,
                  performer: Option<UserRef>, role: Option<string>, now: int): (o: Outcome)
    ensures o.result.Err? ==> o.store == s
    ensures o.result.Ok? ==> key in s.products && AppendedOne(s, key, o)
  {
    if newStock.None? || newStock.value < 0 then Outcome(Err(InvalidNewStock), s)
    else if key !in s.products then Outcome(Err(ProductNotFound), s)
    else if performer.None? then Outcome(Err(EntryRejected), s)
    else
      var product := s.products[key];
      var qty := Abs(newStock.value - product.currentStock);
      var updated := product.(currentStock := newStock.value);
      var tx := StockEntry(|s.ledger|, key, Adjustment, qty, None, newStock.value, performer.value,
                           role, notes, None, now);
      Outcome(Ok(Receipt(updated, tx)), Store(s.products[key := updated], s.ledger + [tx]))
  }

  /** Registration of a product under a fresh reference. */
  function Register(s: Store, key: ProductRef, p: Product): (s': Store)
    requires key !in s.products
    ensures s'.ledger == s.ledger && s'.products.Keys == s.products.Keys + {key}
    ensures s'.products[key] == p
    ensures forall k :: k in s.products ==> s'.products[k] == s.products[k]
  {
    Store(s.products[key := p], s.ledger)
  }

  // ---------------------------------------------------------------------------
  // Outcomes of each operation

  /**
   * Procure fails with "Quantity must be > 0" for a missing, zero or negative
   * quantity (whatever the product), with "Product not found" for an unknown
   * product, and otherwise succeeds exactly when a performer is known: the
   * stock rises by the quantity and the one new entry records it.
   */
  lemma ProcureOutcome(s: Store, key: ProductRef, quantity: Option<int>, notes: BodyField<string>, invoice: Option<Invoice>,
                       unitPrice: Option<int>, performer: Option<UserRef>, now: int)
    requires Invariant(s)
    ensures var o := ProcureStock(s, key, quantity, notes, invoice, unitPrice, performer, now);
            && ((quantity.None? || quantity.value <= 0) ==>
                  o.result == Err(QuantityNotPositive) && Message(o.result.error) == "Quantity must be > 0")
            && (quantity.Some? && quantity.value > 0 && key !in s.products ==>
                  o.result == Err(ProductNotFound) && Message(o.result.error) == "Product not found")
            && (quantity.Some? && quantity.value > 0 && key in s.products ==>
                 (o.result.Ok? <==> performer.Some?))
            && (o.result.Ok? ==>
                 var tx := o.result.value.tx;
                 && o.result.value.product.currentStock == s.products[key].currentStock + quantity.value
                 && tx.kind == Procure && tx.quantity == quantity.value
                 && tx.balanceAfter == s.products[key].currentStock + quantity.value
                 && tx.performedBy == performer.value && tx.roleSnapshot == Some(SharedRoleSnapshot)
                 && tx.unitPrice == unitPrice && tx.invoice == invoice
                 && (notes.Undefined? ==> tx.notes == Some(""))
                 && (notes.Null? ==> tx.notes == None)
                 && (notes.Given? ==> tx.notes == Some(notes.value))
                 && tx.createdAt == now)
  {
    if quantity.Some? && quantity.value > 0 && key in s.products {
      assert s.products[key].currentStock >= 0;
    }
  }

  /**
   * Distribute fails for a bad quantity, an unknown product, or a quantity
   * above the stock ("Insufficient stock"); otherwise it succeeds exactly when
   * a performer is known, lowering the stock by the quantity, never below 0.
   */
  lemma DistributeOutcome(s: Store, key: ProductRef, quantity: Option<int>, notes: BodyField<string>, invoice: Option<Invoice>,
                          performer: Option<UserRef>, now: int)
    requires Invariant(s)
    ensures var o := DistributeStock(s, key, quantity, notes, invoice, performer, now);
            && ((quantity.None? || quantity.value <= 0) ==>
                  o.result == Err(QuantityNotPositive) && Message(o.result.error) == "Quantity must be > 0")
            && (quantity.Some? && quantity.value > 0 && key !in s.products ==>
                  o.result == Err(ProductNotFound) && Message(o.result.error) == "Product not found")
            && ((quantity.Some? && quantity.value > 0 && key in s.products && s.products[key].currentStock < quantity.value)
                 ==> o.result == Err(InsufficientStock) && Message(o.result.error) == "Insufficient stock")
            && ((quantity.Some? && quantity.value > 0 && key in s.products && quantity.value <= s.products[key].currentStock)
                 ==> (o.result.Ok? <==> performer.Some?))
            && (o.result.Ok? ==>
                 var tx := o.result.value.tx;
                 && o.result.value.product.currentStock == s.products[key].currentStock - quantity.value
                 && o.result.value.product.currentStock >= 0
                 && tx.kind == Distribute && tx.quantity == quantity.value
                 && tx.balanceAfter == o.result.value.product.currentStock
                 && tx.performedBy == performer.value && tx.roleSnapshot == Some(SharedRoleSnapshot)
                 && tx.unitPrice == None && tx.invoice == invoice
                 && (notes.Undefined? ==> tx.notes == Some(""))
                 && (notes.Null? ==> tx.notes == None)
                 && (notes.Given? ==> tx.notes == Some(notes.value))
                 && tx.createdAt == now)
  {
  }

  /**
   * Adjust fails with "Invalid newStock" for a missing or negative value and
   * with "Product not found" for an unknown product; otherwise it succeeds
   * exactly when a performer is known, setting the stock to `newStock` and
   * recording `|newStock - oldStock|` in either direction.
   */
  lemma AdjustOutcome(s: Store, key: ProductRef, newStock: Option<int>, notes: Option<string>,
                      performer: Option<UserRef>, role: Option<string>, now: int)
    ensures var o := AdjustStock(s, key, newStock, notes, performer, role, now);
            && ((newStock.None? || newStock.value < 0) ==>
                  o.result == Err(InvalidNewStock) && Message(o.result.error) == "Invalid newStock")
            && (newStock.Some? && newStock.value >= 0 && key !in s.products ==>
                  o.result == Err(ProductNotFound) && Message(o.result.error) == "Product not found")
            && (newStock.Some? && newStock.value >= 0 && key in s.products ==> (o.result.Ok? <==> performer.Some?))
            && (o.result.Ok? ==>
                 var tx := o.result.value.tx;
                 && o.result.value.product.currentStock == newStock.value
                 && tx.kind == Adjustment
                 && tx.quantity == Abs(newStock.value - s.products[key].currentStock)
                 && tx.balanceAfter == newStock.value
                 && tx.performedBy == performer.value && tx.roleSnapshot == role
                 && tx.unitPrice == None && tx.invoice == None && tx.notes == notes && tx.createdAt == now)
  {
  }

  // ---------------------------------------------------------------------------
  // The invariant is preserved

  /** Appending a correct record for `key` and updating its stock keeps the invariant. */
  lemma AppendPreservesInvariant(s: Store, key: ProductRef, updated: Product, tx: StockEntry)
    requires Invariant(s) && key in s.products
    requires updated == s.products[key].(currentStock := updated.currentStock) && updated.currentStock >= 0
    requires tx.product == key && tx.txId == |s.ledger| && tx.balanceAfter == updated.currentStock
    requires Follows(s.products[key].currentStock, tx)
    ensures Invariant(Store(s.products[key := updated], s.ledger + [tx]))
  {
    var s' := Store(s.products[key := updated], s.ledger + [tx]);
    assert updated.productId == s.products[key].productId;
    assert forall k :: k in s'.products ==> ValidProduct(s'.products[k]) && HasProductId(s'.products[k]);
    assert UniqueProductIds(s'.products);
    assert forall i :: 0 <= i < |s'.ledger| ==> s'.ledger[i].txId == i && s'.ledger[i].product in s'.products;
    forall k | k in s'.products ensures s'.products[k].currentStock == BalanceOf(s'.ledger, k) {
      BalanceOfAppend(s.ledger, tx, k);
    }
    AppendKeepsChain(s.ledger, tx);
  }

  /** Appending an entry that follows its product's balance keeps every entry following. */
  lemma AppendKeepsChain(l: seq<StockEntry>, tx: StockEntry)
    requires forall i :: 0 <= i < |l| ==> Follows(BalanceOf(l[..i], l[i].product), l[i])
    requires Follows(BalanceOf(l, tx.product), tx)
    ensures var l' := l + [tx];
            forall i :: 0 <= i < |l'| ==> Follows(BalanceOf(l'[..i], l'[i].product), l'[i])
  {
    var l' := l + [tx];
    forall i | 0 <= i < |l'|
      ensures Follows(BalanceOf(l'[..i], l'[i].product), l'[i])
    {
      if i < |l| {
        assert l'[..i] == l[..i];
      } else {
        assert l'[..i] == l;
      }
    }
  }

  lemma ProcurePreservesInvariant(s: Store, key: ProductRef, quantity: Option<int>, notes: BodyField<string>,
                                  invoice: Option<Invoice>, unitPrice: Option<int>, performer: Option<UserRef>, now: int)
    requires Invariant(s)
    ensures Invariant(ProcureStock(s, key, quantity, notes, invoice, unitPrice, performer, now).store)
  {
    var o := ProcureStock(s, key, quantity, notes, invoice, unitPrice, performer, now);
    if o.result.Ok? {
      AppendPreservesInvariant(s, key, o.result.value.product, o.result.value.tx);
    }
  }

  lemma DistributePreservesInvariant(s: Store, key: ProductRef, quantity: Option<int>, notes: BodyField<string>,
                                     invoice: Option<Invoice>, performer: Option<UserRef>, now: int)
    requires Invariant(s)
    ensures Invariant(DistributeStock(s, key, quantity, notes, invoice, performer, now).store)
  {
    var o := DistributeStock(s, key, quantity, notes, invoice, performer, now);
    if o.result.Ok? {
      AppendPreservesInvariant(s, key, o.result.value.product, o.result.value.tx);
    }
  }

  lemma AdjustPreservesInvariant(s: Store, key: ProductRef, newStock: Option<int>, notes: Option<string>,
                                 performer: Option<UserRef>, role: Option<string>, now: int)
    requires Invariant(s)
    ensures Invariant(AdjustStock(s, key, newStock, notes, performer, role, now).store)
  {
    var o := AdjustStock(s, key, newStock, notes, performer, role, now);
    if o.result.Ok? {
      AppendPreservesInvariant(s, key, o.result.value.product, o.result.value.tx);
    }
  }

  /**
   * Registering a valid product with an identifier no other product has, and
   * the default stock 0, keeps the invariant: no entry refers to a fresh
   * reference, so its ledger balance is the baseline 0.
   */
  lemma RegisterPreservesInvariant(s: Store, key: ProductRef, p: Product)
    requires Invariant(s) && key !in s.products
    requires ValidProduct(p) && HasProductId(p) && p.currentStock == 0
    requires forall k :: k in s.products ==> s.products[k].productId != p.productId
    ensures Invariant(Register(s, key, p))
  {
    BalanceOfUnreferenced(s.ledger, key);
  }

  // ---------------------------------------------------------------------------
  // Reconstructing balances from the ledger

  /** The effect of one entry on a running balance. */
  function Apply(b: int, e: StockEntry): int {
    match e.kind
    case Procure => b + e.quantity
    case Distribute => b - e.quantity
    case Adjustment => e.balanceAfter
  }

  /** The balance of `k` obtained by replaying its entries from the baseline 0. */
  function Replay(l: seq<StockEntry>, k: ProductRef): int {
    if l == [] then 0
    else
      var b := Replay(l[..|l| - 1], k);
      if l[|l| - 1].product == k then Apply(b, l[|l| - 1]) else b
  }

  lemma {:induction false} ReplayPrefix(s: Store, k: ProductRef, n: nat)
    requires Invariant(s) && n <= |s.ledger|
    ensures Replay(s.ledger[..n], k) == BalanceOf(s.ledger[..n], k)
  {
    if n > 0 {
      ReplayPrefix(s, k, n - 1);
      var l := s.ledger[..n];
      assert l[..n - 1] == s.ledger[..n - 1];
      assert l[n - 1] == s.ledger[n - 1];
    }
  }

  /**
   * The stored stock of every product equals the replay of the ledger: the
   * balances can be rebuilt from the log alone.
   */
  lemma StockIsReplay(s: Store, k: ProductRef)
    requires Invariant(s) && k in s.products
    ensures s.products[k].currentStock == Replay(s.ledger, k)
  {
    ReplayPrefix(s, k, |s.ledger|);
    assert s.ledger[..|s.ledger|] == s.ledger;
  }

  /** The total quantity of entries of `kind` for product `k`. */
  function FlowOf(l: seq<StockEntry>, k: ProductRef, kind: TxKind): int {
    if l == [] then 0
    else
      var e := l[|l| - 1];
      FlowOf(l[..|l| - 1], k, kind) + (if e.product == k && e.kind == kind then e.quantity else 0)
  }

  predicate NoAdjustments(l: seq<StockEntry>, k: ProductRef) {
    forall i :: 0 <= i < |l| && l[i].product == k ==> l[i].kind != Adjustment
  }

  lemma {:induction false} ReplayIsNetFlow(l: seq<StockEntry>, k: ProductRef)
    requires NoAdjustments(l, k)
    ensures Replay(l, k) == FlowOf(l, k, Procure) - FlowOf(l, k, Distribute)
  {
    if l != [] {
      var l' := l[..|l| - 1];
      assert forall i :: 0 <= i < |l'| ==> l'[i] == l[i];
      ReplayIsNetFlow(l', k);
    }
  }

  /**
   * For a product that was never adjusted, the stock is everything procured
   * minus everything distributed.
   */
  lemma StockIsNetFlow(s: Store, k: ProductRef)
    requires Invariant(s) && k in s.products && NoAdjustments(s.ledger, k)
    ensures s.products[k].currentStock == FlowOf(s.ledger, k, Procure) - FlowOf(s.ledger, k, Distribute)
  {
    StockIsReplay(s, k);
    ReplayIsNetFlow(s.ledger, k);
  }

  // ---------------------------------------------------------------------------
  // Sequences of operations

  /**
   * Procuring q and then distributing q gives back the original product table,
   * with two new entries in the ledger.
   */
  lemma ProcureThenDistributeRestores(s: Store, key: ProductRef, q: int, performer: UserRef,
                                      notes: BodyField<string>, invoice: Option<Invoice>, unitPrice: Option<int>,
                                      notes': BodyField<string>, invoice': Option<Invoice>, now: int, now': int)
    requires Invariant(s) && key in s.products && q > 0
    ensures var o := ProcureStock(s, key, Some(q), notes, invoice, unitPrice, Some(performer), now);
            && o.result.Ok?
            && var o' := DistributeStock(o.store, key, Some(q), notes', invoice', Some(performer), now');
               && o'.result.Ok?
               && o'.store.products == s.products
               && |o'.store.ledger| == |s.ledger| + 2
               && o'.store.ledger[|s.ledger|].kind == Procure
               && o'.store.ledger[|s.ledger| + 1].kind == Distribute
  {
    var o := ProcureStock(s, key, Some(q), notes, invoice, unitPrice, Some(performer), now);
    assert s.products[key].currentStock >= 0;
    var o' := DistributeStock(o.store, key, Some(q), notes', invoice', Some(performer), now');
    assert o'.store.products[key] == s.products[key];
    assert o'.store.products == s.products;
  }

  /**
   * The worked example: from stock 100, procure 50 gives 150, distribute 180
   * is refused with the stock left at 150, and adjust to 120 records a change
   * of 30 with balance 120.
   */
  lemma WorkedExample(s: Store, key: ProductRef, who: UserRef, role: Option<string>, t1: int, t2: int, t3: int)
    requires key in s.products && s.products[key].currentStock == 100
    ensures var o1 := ProcureStock(s, key, Some(50), Undefined, None, None, Some(who), t1);
            && o1.result.Ok? && o1.store.products[key].currentStock == 150
            && o1.result.value.tx.quantity == 50 && o1.result.value.tx.balanceAfter == 150
            && var o2 := DistributeStock(o1.store, key, Some(180), Undefined, None, Some(who), t2);
               && o2.result == Err(InsufficientStock) && o2.store.products[key].currentStock == 150
               && var o3 := AdjustStock(o2.store, key, Some(120), None, Some(who), role, t3);
                  && o3.result.Ok? && o3.store.products[key].currentStock == 120
                  && o3.result.value.tx.kind == Adjustment
                  && o3.result.value.tx.quantity == 30 && o3.result.value.tx.balanceAfter == 120
  {
  }
}
