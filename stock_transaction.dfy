/**
 * A ledger entry (`StockTransaction` document): one immutable record of a
 * stock-affecting event.
 */
module StockTransaction {
  import opened Common

  /** Internal reference (`_id`) of a product document. */
  type ProductRef = nat

  /** Identifier of a user document, as a string. */
  type UserRef = string

  /** The closed set of entry kinds accepted by the schema's enum. */
  datatype TxKind = Procure | Distribute | Adjustment

  /** The string stored in the `type` field for each kind. */
  function KindName(k: TxKind): string {
    match k
    case Procure => "procure"
    case Distribute => "distribute"
    case Adjustment => "adjustment"
  }

  /** Casting a string to the enum: exactly the three names are accepted. */
  function ParseKind(s: string): (r: Option<TxKind>)
    ensures r.Some? <==> s == "procure" || s == "distribute" || s == "adjustment"
    ensures r.Some? ==> KindName(r.value) == s
  {
    if s == "procure" then Some(Procure)
    else if s == "distribute" then Some(Distribute)
    else if s == "adjustment" then Some(Adjustment)
    else None
  }

  /** Every kind's name parses back to that kind, and no two kinds share a name. */
  lemma KindNameRoundTrip(k: TxKind, k': TxKind)
    ensures ParseKind(KindName(k)) == Some(k)
    ensures KindName(k) == KindName(k') ==> k == k'
  {
  }

  /** The optional invoice reference: url, file name and mime type, each optional. */
  datatype Invoice = Invoice(fileUrl: Option<string>, fileName: Option<string>, fileMimeType: Option<string>)

  /**
   * A ledger entry. `product`, `kind`, `quantity`, `balanceAfter` and
   * `performedBy` are required and therefore always present; `unitPrice`,
   * `roleSnapshot`, `notes` and `invoice` are optional. `txId` is the
   * document's `_id` and `createdAt` its creation timestamp.
   */
  datatype StockEntry = StockEntry(
    txId: nat,
    product: ProductRef,
    kind: TxKind,
    quantity: int,
    unitPrice: Option<int>,
    balanceAfter: int,
    performedBy: UserRef,
    roleSnapshot: Option<string>,
    notes: Option<string>,
    invoice: Option<Invoice>,
    createdAt: int)

  /** The entry's creation time, the key of every newest-first listing. */
  function CreatedAt(e: StockEntry): int { e.createdAt }

  /**
   * The documented meaning of the numeric fields: `quantity` is the magnitude
   * of the change (positive for procure and distribute; an adjustment to the
   * current value records 0) and `balanceAfter` is a stock level, never negative.
   */
  predicate WellFormed(e: StockEntry) {
    && e.quantity >= 0
    && (e.kind != Adjustment ==> e.quantity > 0)
    && e.balanceAfter >= 0
  }
}
