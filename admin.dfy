/**
 * The dashboard: procure and distribute totals over an inclusive date window
 * and the feed of the twenty newest ledger entries. Dates are milliseconds.
 */
module AdminController {
  import opened Common
  import opened Ordering
  import opened StockTransaction
  import Ledger

  /** Thirty days, in milliseconds. */
  const DefaultSpan: int := 30 * 24 * 3600 * 1000
  const RecentCount: nat := 20

  datatype Window = Window(start: int, end: int)

  /** The window from the query: thirty days before `now` up to `now`, each end replaced when sent. */
  function DashboardWindow(startDate: Option<int>, endDate: Option<int>, now: int): (w: Window)
    ensures startDate.None? ==> w.start == now - 2592000000
    ensures startDate.Some? ==> w.start == startDate.value
    ensures w.end == endDate.GetOr(now)
  {
    Window(startDate.GetOr(now - DefaultSpan), endDate.GetOr(now))
  }

  /** `$gte: start, $lte: end`: both ends are inside. */
  predicate InWindow(e: StockEntry, w: Window) {
    w.start <= e.createdAt <= w.end
  }

  /** Whether `e` is summed into the total for `kind` over `w`. */
  predicate Counted(e: StockEntry, kind: TxKind, w: Window) {
    e.kind == kind && InWindow(e, w)
  }

  /** `$sum` of the quantities of the entries of `kind` in `w`; 0 when there are none. */
  function TotalOf(l: seq<StockEntry>, kind: TxKind, w: Window): int {
    if l == [] then 0
    else (if Counted(l[0], kind, w) then l[0].quantity else 0) + TotalOf(l[1..], kind, w)
  }

  /** The entries summed into the total for `kind` over `w`. */
  function CountedEntries(l: seq<StockEntry>, kind: TxKind, w: Window): (r: seq<StockEntry>)
    ensures forall i :: 0 <= i < |r| ==> Counted(r[i], kind, w)
    ensures forall e :: multiset(r)[e] == if Counted(e, kind, w) then multiset(l)[e] else 0
  {
    if l == [] then []
    else
      assert l == [l[0]] + l[1..];
      (if Counted(l[0], kind, w) then [l[0]] else []) + CountedEntries(l[1..], kind, w)
  }

  /** A plain sum of quantities. */
  function SumQuantity(l: seq<StockEntry>): int {
    if l == [] then 0 else l[0].quantity + SumQuantity(l[1..])
  }

  /** The total is the sum of the quantities of exactly the counted entries. */
  lemma {:induction false} TotalIsSumOfCounted(l: seq<StockEntry>, kind: TxKind, w: Window)
    ensures TotalOf(l, kind, w) == SumQuantity(CountedEntries(l, kind, w))
  {
    if l != [] {
      TotalIsSumOfCounted(l[1..], kind, w);
      var rest := CountedEntries(l[1..], kind, w);
      if Counted(l[0], kind, w) {
        assert CountedEntries(l, kind, w) == [l[0]] + rest;
        assert ([l[0]] + rest)[1..] == rest;
      } else {
        assert CountedEntries(l, kind, w) == rest;
      }
    }
  }

  /** The total over a concatenation is the sum of the totals. */
  lemma {:induction false} TotalOfConcat(a: seq<StockEntry>, b: seq<StockEntry>, kind: TxKind, w: Window)
    ensures TotalOf(a + b, kind, w) == TotalOf(a, kind, w) + TotalOf(b, kind, w)
  {
    if a == [] {
      assert a + b == b;
    } else {
      assert (a + b)[1..] == a[1..] + b;
      TotalOfConcat(a[1..], b, kind, w);
    }
  }

  /** Appending one entry adds its quantity exactly when it is counted. */
  lemma TotalOfAppend(l: seq<StockEntry>, e: StockEntry, kind: TxKind, w: Window)
    ensures TotalOf(l + [e], kind, w) == TotalOf(l, kind, w) + (if Counted(e, kind, w) then e.quantity else 0)
  {
    TotalOfConcat(l, [e], kind, w);
  }

  /** Adjustments are never counted in either total, wherever they sit. */
  lemma AdjustmentsNotCounted(a: seq<StockEntry>, e: StockEntry, b: seq<StockEntry>, kind: TxKind, w: Window)
    requires e.kind == Adjustment && kind != Adjustment
    ensures TotalOf(a + [e] + b, kind, w) == TotalOf(a + b, kind, w)
  {
    TotalOfConcat(a + [e], b, kind, w);
    TotalOfConcat(a, [e], kind, w);
    TotalOfConcat(a, b, kind, w);
  }

  /**
   * Over well-formed entries a procure or distribute total is never negative,
   * and it is 0 exactly when no entry of that kind falls in the window.
   */
  lemma {:induction false} TotalZeroIffNoneCounted(l: seq<StockEntry>, kind: TxKind, w: Window)
    requires kind != Adjustment
    requires forall i :: 0 <= i < |l| ==> WellFormed(l[i])
    ensures TotalOf(l, kind, w) >= 0
    ensures TotalOf(l, kind, w) == 0 <==> forall i :: 0 <= i < |l| ==> !Counted(l[i], kind, w)
  {
    if l != [] {
      assert forall i :: 1 <= i < |l| ==> l[1..][i - 1] == l[i];
      TotalZeroIffNoneCounted(l[1..], kind, w);
      assert WellFormed(l[0]);
    }
  }

  /** The dashboard's figures; the low-stock list is not part of this model. */
  datatype Dashboard = Dashboard(totalProcured: int, totalDistributed: int, recentTx: seq<StockEntry>)

  /** The twenty newest entries, newest first. */
  function RecentTx(l: seq<StockEntry>): seq<StockEntry> {
    var sorted := SortNewestFirst(l, CreatedAt);
    sorted[..Min(RecentCount, |sorted|)]
  }

  /**
   * The feed holds min(20, |ledger|) ledger entries, newest first, and no
   * entry left out is newer than one shown.
   */
  lemma RecentTxIsNewest(l: seq<StockEntry>)
    ensures var r := RecentTx(l);
            && |r| == Min(RecentCount, |l|)
            && NewestFirst(r, CreatedAt)
            && multiset(r) <= multiset(l)
            && forall x, y :: x in r && y in multiset(l) - multiset(r) ==> x.createdAt >= y.createdAt
  {
    var sorted := SortNewestFirst(l, CreatedAt);
    PrefixIsNewest(sorted, CreatedAt, Min(RecentCount, |sorted|));
  }

  /**
   * `getDashboard`: each total is the sum of the quantities of exactly the
   * entries of that kind inside the window, and the feed is the twenty newest
   * ledger entries, newest first, with nothing left out newer than one shown.
   */
  function GetDashboard(l: seq<StockEntry>, startDate: Option<int>, endDate: Option<int>, now: int): (d: Dashboard)
    ensures var w := DashboardWindow(startDate, endDate, now);
            && d.totalProcured == SumQuantity(CountedEntries(l, Procure, w))
            && d.totalDistributed == SumQuantity(CountedEntries(l, Distribute, w))
    ensures |d.recentTx| == Min(RecentCount, |l|)
    ensures NewestFirst(d.recentTx, CreatedAt)
    ensures multiset(d.recentTx) <= multiset(l)
    ensures forall x, y :: x in d.recentTx && y in multiset(l) - multiset(d.recentTx) ==> x.createdAt >= y.createdAt
  {
    var w := DashboardWindow(startDate, endDate, now);
    TotalIsSumOfCounted(l, Procure, w);
    TotalIsSumOfCounted(l, Distribute, w);
    RecentTxIsNewest(l);
    Dashboard(TotalOf(l, Procure, w), TotalOf(l, Distribute, w), RecentTx(l))
  }

  /**
   * A successful procure stamped inside the window raises the procured total
   * by its quantity and leaves the distributed total alone.
   */
  lemma ProcureRaisesTotal(s: Ledger.Store, key: ProductRef, quantity: Option<int>, notes: BodyField<string>,
                           invoice: Option<Invoice>, unitPrice: Option<int>, performer: Option<UserRef>,
                           now: int, w: Window)
    requires Ledger.Invariant(s)
    requires w.start <= now <= w.end
    ensures var o := Ledger.ProcureStock(s, key, quantity, notes, invoice, unitPrice, performer, now);
            o.result.Ok? ==>
              && TotalOf(o.store.ledger, Procure, w) == TotalOf(s.ledger, Procure, w) + quantity.value
              && TotalOf(o.store.ledger, Distribute, w) == TotalOf(s.ledger, Distribute, w)
  {
    var o := Ledger.ProcureStock(s, key, quantity, notes, invoice, unitPrice, performer, now);
    if o.result.Ok? {
      Ledger.ProcureOutcome(s, key, quantity, notes, invoice, unitPrice, performer, now);
      TotalOfAppend(s.ledger, o.result.value.tx, Procure, w);
      TotalOfAppend(s.ledger, o.result.value.tx, Distribute, w);
    }
  }

  /**
   * A successful distribute stamped inside the window raises the distributed
   * total by its quantity and leaves the procured total alone.
   */
  lemma DistributeRaisesTotal(s: Ledger.Store, key: ProductRef, quantity: Option<int>, notes: BodyField<string>,
                              invoice: Option<Invoice>, performer: Option<UserRef>, now: int, w: Window)
    requires Ledger.Invariant(s)
    requires w.start <= now <= w.end
    ensures var o := Ledger.DistributeStock(s, key, quantity, notes, invoice, performer, now);
            o.result.Ok? ==>
              && TotalOf(o.store.ledger, Distribute, w) == TotalOf(s.ledger, Distribute, w) + quantity.value
              && TotalOf(o.store.ledger, Procure, w) == TotalOf(s.ledger, Procure, w)
  {
    var o := Ledger.DistributeStock(s, key, quantity, notes, invoice, performer, now);
    if o.result.Ok? {
      Ledger.DistributeOutcome(s, key, quantity, notes, invoice, performer, now);
      TotalOfAppend(s.ledger, o.result.value.tx, Procure, w);
      TotalOfAppend(s.ledger, o.result.value.tx, Distribute, w);
    }
  }

  /** An adjustment changes neither total. */
  lemma AdjustLeavesTotals(s: Ledger.Store, key: ProductRef, newStock: Option<int>, notes: Option<string>,
                           performer: Option<UserRef>, role: Option<string>, now: int, w: Window, kind: TxKind)
    requires kind != Adjustment
    ensures var o := Ledger.AdjustStock(s, key, newStock, notes, performer, role, now);
            TotalOf(o.store.ledger, kind, w) == TotalOf(s.ledger, kind, w)
  {
    var o := Ledger.AdjustStock(s, key, newStock, notes, performer, role, now);
    if o.result.Ok? {
      TotalOfAppend(s.ledger, o.result.value.tx, kind, w);
    }
  }
}
