/**
 * The ledger read queries: the filtered, newest-first, paginated listing, the
 * lookup of one entry, and the lookup of an entry's invoice reference.
 */
module TransactionController {
  import opened Common
  import opened Ordering
  import opened StockTransaction
  import Ledger

  /** The query-string parameters of the listing, as numbers and references. */
  datatype TxQuery = TxQuery(
    product: Option<ProductRef>,
    kind: Option<string>,
    skip: Option<int>,
    limit: Option<int>,
    startDate: Option<int>,
    endDate: Option<int>)

  /**
   * A negative skip is refused by the store and the handler does not catch
   * it, so no response is sent; the other two are 404 answers.
   */
  datatype QueryError = NegativeSkip | NotFound | InvoiceNotFound

  function Message(e: QueryError): Option<string> {
    match e
    case NegativeSkip => None
    case NotFound => Some("Not found")
    case InvoiceNotFound => Some("Invoice not found")
  }

  const DefaultSkip: int := 0
  const DefaultLimit: int := 50
  const MaxLimit: int := 200

  /** A string filter is applied only when it is present and non-empty (truthy). */
  predicate Supplied(s: Option<string>) {
    s.Some? && s.value != ""
  }

  /** The filter document: each part constrains only when supplied; both date bounds are inclusive. */
  predicate Matches(e: StockEntry, q: TxQuery) {
    && (q.product.Some? ==> e.product == q.product.value)
    && (Supplied(q.kind) ==> KindName(e.kind) == q.kind.value)
    && (q.startDate.Some? ==> q.startDate.value <= e.createdAt)
    && (q.endDate.Some? ==> e.createdAt <= q.endDate.value)
  }

  /** The entries of `l` that match `q`, each as often as it occurs in `l`. */
  function Filter(l: seq<StockEntry>, q: TxQuery): (r: seq<StockEntry>)
    ensures forall i :: 0 <= i < |r| ==> Matches(r[i], q)
    ensures forall e :: multiset(r)[e] == if Matches(e, q) then multiset(l)[e] else 0
  {
    if l == [] then []
    else
      assert l == [l[0]] + l[1..];
      (if Matches(l[0], q) then [l[0]] else []) + Filter(l[1..], q)
  }

  /**
   * How many documents `.limit(Math.min(200, Number(limit)))` lets through:
   * the store reads a limit of 0 as "no limit" (`None`) and a negative limit
   * as its absolute value.
   */
  function PageSize(limit: Option<int>): (n: Option<nat>)
    ensures limit.None? ==> n == Some(DefaultLimit as nat)
    ensures limit.Some? && limit.value > 0 ==> n == Some(Min(MaxLimit, limit.value) as nat)
    ensures limit.Some? && limit.value == 0 ==> n.None?
    ensures limit.Some? && limit.value < 0 ==> n == Some(-limit.value as nat)
    ensures n.Some? ==> n.value > 0
  {
    var m := Min(MaxLimit, limit.GetOr(DefaultLimit));
    if m == 0 then None else Some(Abs(m))
  }

  /** `listTransactions`: filter, sort newest first, skip, then limit. */
  function ListTransactions(l: seq<StockEntry>, q: TxQuery): (r: Result<seq<StockEntry>, QueryError>)
    ensures r.Err? <==> q.skip.GetOr(DefaultSkip) < 0
    ensures r.Err? ==> r.error == NegativeSkip && Message(r.error).None?
  {
    var skip := q.skip.GetOr(DefaultSkip);
    if skip < 0 then Err(NegativeSkip)
    else
      var sorted := SortNewestFirst(Filter(l, q), CreatedAt);
      var rest := if skip <= |sorted| then sorted[skip..] else [];
      match PageSize(q.limit)
      case None => Ok(rest)
      case Some(n) => Ok(rest[..Min(n, |rest|)])
  }

  /** The matching entries, newest first: the list every page is cut from. */
  function Matching(l: seq<StockEntry>, q: TxQuery): seq<StockEntry> {
    SortNewestFirst(Filter(l, q), CreatedAt)
  }

  /**
   * A page is the slice of the newest-first matching list that starts at
   * `skip` and holds as many entries as the page size allows, or all the rest
   * when there is no limit.
   */
  lemma ListIsSlice(l: seq<StockEntry>, q: TxQuery)
    requires q.skip.GetOr(DefaultSkip) >= 0
    ensures var r := ListTransactions(l, q).value;
            var m := Matching(l, q);
            var skip := q.skip.GetOr(DefaultSkip);
            var avail := if skip <= |m| then |m| - skip else 0;
            && |r| == (match PageSize(q.limit) case None => avail case Some(n) => Min(n, avail))
            && forall i :: 0 <= i < |r| ==> r[i] == m[skip + i]
  {
  }

  /**
   * Every listed entry is a ledger entry matching every supplied filter, and
   * the page is newest first.
   */
  lemma ListIsSound(l: seq<StockEntry>, q: TxQuery)
    requires q.skip.GetOr(DefaultSkip) >= 0
    ensures var r := ListTransactions(l, q).value;
            && NewestFirst(r, CreatedAt)
            && forall i :: 0 <= i < |r| ==> Matches(r[i], q) && r[i] in l
  {
    var r := ListTransactions(l, q).value;
    var m := Matching(l, q);
    ListIsSlice(l, q);
    var skip := q.skip.GetOr(DefaultSkip);
    forall i | 0 <= i < |r| ensures Matches(r[i], q) && r[i] in l {
      assert r[i] == m[skip + i];
      assert r[i] in multiset(m);
      assert multiset(Filter(l, q))[r[i]] > 0;
    }
  }

  /** With no limit sent a page holds at most 50 entries; with a positive limit, at most min(200, limit). */
  lemma ListIsCapped(l: seq<StockEntry>, q: TxQuery)
    requires q.skip.GetOr(DefaultSkip) >= 0
    requires q.limit.None? || q.limit.value > 0
    ensures |ListTransactions(l, q).value| <= Min(MaxLimit, q.limit.GetOr(DefaultLimit))
  {
    ListIsSlice(l, q);
  }

  /**
   * The cap does not hold for a limit of 0 or below: a limit of -300 over 300
   * matching entries lists all 300.
   */
  lemma NonPositiveLimitIsNotCapped(l: seq<StockEntry>, q: TxQuery)
    requires |l| == 300 && q == TxQuery(None, None, None, Some(-300), None, None)
    ensures |ListTransactions(l, q).value| == 300
  {
    ListIsSlice(l, q);
    assert Filter(l, q) == l by { FilterAll(l, q); }
  }

  /** With no filter supplied every entry matches. */
  lemma FilterAll(l: seq<StockEntry>, q: TxQuery)
    requires q.product.None? && !Supplied(q.kind) && q.startDate.None? && q.endDate.None?
    ensures Filter(l, q) == l
  {
    if l != [] {
      FilterAll(l[1..], q);
      assert l == [l[0]] + l[1..];
    }
  }

  /**
   * A first page from 0 that is large enough lists every matching entry,
   * each as often as it is in the ledger.
   */
  lemma FirstPageIsComplete(l: seq<StockEntry>, q: TxQuery)
    requires q.skip.GetOr(DefaultSkip) == 0
    requires PageSize(q.limit).None? || PageSize(q.limit).value >= |Filter(l, q)|
    ensures multiset(ListTransactions(l, q).value) == multiset(Filter(l, q))
  {
    ListIsSlice(l, q);
    var m := Matching(l, q);
    assert ListTransactions(l, q).value == m;
  }

  /** The `n` entries of `m` from position `skip` on, or all that remain. */
  function Page(m: seq<StockEntry>, skip: nat, n: nat): (r: seq<StockEntry>)
    ensures |r| == Min(n, if skip <= |m| then |m| - skip else 0)
    ensures forall i :: 0 <= i < |r| ==> r[i] == m[skip + i]
  {
    var rest := if skip <= |m| then m[skip..] else [];
    rest[..Min(n, |rest|)]
  }

  /** Two pages cut back to back make up the page of their combined size. */
  lemma {:induction false} PageSplit(m: seq<StockEntry>, s: nat, a: nat, b: nat)
    ensures Page(m, s, a) + Page(m, s + a, b) == Page(m, s, a + b)
  {
    var r1, r2, r3 := Page(m, s, a), Page(m, s + a, b), Page(m, s, a + b);
    assert |r1 + r2| == |r3|;
    forall i | 0 <= i < |r3| ensures (r1 + r2)[i] == r3[i] {
      if i >= |r1| {
        assert (r1 + r2)[i] == r2[i - |r1|];
      }
    }
  }

  /** With a positive limit, a listing is the page of that size at `skip` of the matching entries. */
  lemma ListIsPage(l: seq<StockEntry>, q: TxQuery, s: nat, n: nat)
    requires 0 < n <= MaxLimit && q.skip == Some(s as int) && q.limit == Some(n as int)
    ensures ListTransactions(l, q) == Ok(Page(Matching(l, q), s, n))
  {
  }

  /**
   * Consecutive pages fit together: the page of size a at skip s followed by
   * the page of size b at skip s + a is the page of size a + b at skip s.
   */
  lemma PagesAreConsecutive(l: seq<StockEntry>, q: TxQuery, s: nat, a: nat, b: nat)
    requires 0 < a && 0 < b && a + b <= MaxLimit
    ensures ListTransactions(l, q.(skip := Some(s), limit := Some(a))).value
            + ListTransactions(l, q.(skip := Some(s + a), limit := Some(b))).value
         == ListTransactions(l, q.(skip := Some(s), limit := Some(a + b))).value
  {
    var q1, q2, q3 := q.(skip := Some(s), limit := Some(a)), q.(skip := Some(s + a), limit := Some(b)),
                      q.(skip := Some(s), limit := Some(a + b));
    ListIsPage(l, q1, s, a);
    ListIsPage(l, q2, s + a, b);
    ListIsPage(l, q3, s, a + b);
    assert Filter(l, q1) == Filter(l, q) by { FilterIgnoresPaging(l, q, q1); }
    assert Filter(l, q2) == Filter(l, q) by { FilterIgnoresPaging(l, q, q2); }
    assert Filter(l, q3) == Filter(l, q) by { FilterIgnoresPaging(l, q, q3); }
    PageSplit(Matching(l, q), s, a, b);
  }

  /** Only the filter fields decide which entries match; skip and limit do not. */
  lemma FilterIgnoresPaging(l: seq<StockEntry>, q: TxQuery, q': TxQuery)
    requires q'.product == q.product && q'.kind == q.kind
    requires q'.startDate == q.startDate && q'.endDate == q.endDate
    ensures Filter(l, q') == Filter(l, q)
  {
    if l != [] {
      FilterIgnoresPaging(l[1..], q, q');
    }
  }

  /** `getTransaction`: the entry with that id, or not found. */
  function GetTransaction(l: seq<StockEntry>, id: nat): (r: Result<StockEntry, QueryError>)
    ensures r.Ok? ==> r.value in l && r.value.txId == id
    ensures r.Err? ==> r.error == NotFound && Message(r.error) == Some("Not found")
                       && forall i :: 0 <= i < |l| ==> l[i].txId != id
  {
    if l == [] then Err(NotFound)
    else if l[0].txId == id then Ok(l[0])
    else
      var r := GetTransaction(l[1..], id);
      assert forall i :: 1 <= i < |l| ==> l[i] == l[1..][i - 1];
      r
  }

  /** On a ledger kept by the mutation protocol, id `i` is the `i`-th entry. */
  lemma GetTransactionFindsEntry(s: Ledger.Store, i: nat)
    requires Ledger.Invariant(s)
    ensures i < |s.ledger| ==> GetTransaction(s.ledger, i) == Ok(s.ledger[i])
    ensures i >= |s.ledger| ==> GetTransaction(s.ledger, i) == Err(NotFound)
  {
    if i < |s.ledger| {
      assert s.ledger[i].txId == i;
      var r := GetTransaction(s.ledger, i);
      var j :| 0 <= j < |s.ledger| && s.ledger[j] == r.value;
    }
  }

  /** The triple `getInvoice` returns. */
  datatype InvoiceView = InvoiceView(fileUrl: string, fileName: Option<string>, fileMimeType: Option<string>)

  /** `getInvoice`: not found unless the entry exists, has an invoice, and the invoice a non-empty url. */
  function GetInvoice(l: seq<StockEntry>, id: nat): (r: Result<InvoiceView, QueryError>)
    ensures r.Err? ==> r.error == InvoiceNotFound && Message(r.error) == Some("Invoice not found")
  {
    match GetTransaction(l, id)
    case Err(_) => Err(InvoiceNotFound)
    case Ok(tx) =>
      if tx.invoice.None? || tx.invoice.value.fileUrl.None? || tx.invoice.value.fileUrl.value == "" then Err(InvoiceNotFound)
      else Ok(InvoiceView(tx.invoice.value.fileUrl.value, tx.invoice.value.fileName, tx.invoice.value.fileMimeType))
  }

  /**
   * The invoice is found exactly when the entry exists and carries an invoice
   * with a non-empty url, and then its three fields are returned unchanged.
   */
  lemma GetInvoiceOutcome(s: Ledger.Store, i: nat)
    requires Ledger.Invariant(s)
    ensures var r := GetInvoice(s.ledger, i);
            && (r.Ok? <==> i < |s.ledger| && s.ledger[i].invoice.Some? && Supplied(s.ledger[i].invoice.value.fileUrl))
            && (r.Ok? ==> var inv := s.ledger[i].invoice.value;
                          r.value == InvoiceView(inv.fileUrl.value, inv.fileName, inv.fileMimeType))
  {
    GetTransactionFindsEntry(s, i);
  }
}
