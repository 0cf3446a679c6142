/**
 * The product document: its schema bounds and defaults, the zero-padding
 * helper `pad`, the pre-save hook that assigns the human-readable identifier
 * `PRD-<CATEGORY>-<YEAR>-<seq>` from a per-(category, year) counter, and the
 * recomputation of the stock level from warehouse subtotals.
 */
module ProductModel {
  import opened Common

  // ---------------------------------------------------------------------------
  // Decimal text

  predicate IsDigit(c: char) { '0' <= c <= '9' }

  predicate AllDigits(s: string) {
    forall i :: 0 <= i < |s| ==> IsDigit(s[i])
  }

  function DigitChar(d: nat): (c: char)
    requires d < 10
    ensures IsDigit(c)
  {
    ('0' as int + d) as char
  }

  function DigitValue(c: char): (d: nat)
    requires IsDigit(c)
    ensures d < 10
  {
    c as int - '0' as int
  }

  /** `String(n)` for a non-negative integer: its decimal digits. */
  function DecimalString(n: nat): (s: string)
    ensures |s| >= 1 && AllDigits(s)
  {
    if n < 10 then [DigitChar(n)] else DecimalString(n / 10) + [DigitChar(n % 10)]
  }

  /** The number a string of decimal digits denotes (leading zeros allowed). */
  function DigitsValue(s: string): nat
    requires AllDigits(s)
  {
    if s == [] then 0 else DigitsValue(s[..|s| - 1]) * 10 + DigitValue(s[|s| - 1])
  }

  /** Reading back the decimal text of `n` gives `n`. */
  lemma {:induction false} DecimalRoundTrip(n: nat)
    ensures DigitsValue(DecimalString(n)) == n
  {
    var s := DecimalString(n);
    if n >= 10 {
      assert s[..|s| - 1] == DecimalString(n / 10);
      DecimalRoundTrip(n / 10);
    } else {
      assert s[..|s| - 1] == [];
    }
  }

  /** A leading zero does not change the value of a digit string. */
  lemma {:induction false} LeadingZeroValue(s: string)
    requires AllDigits(s)
    ensures AllDigits("0" + s) && DigitsValue("0" + s) == DigitsValue(s)
  {
    var t := "0" + s;
    if s == [] {
      assert t[..|t| - 1] == [];
    } else {
      assert t[..|t| - 1] == "0" + s[..|s| - 1];
      LeadingZeroValue(s[..|s| - 1]);
    }
  }

  // ---------------------------------------------------------------------------
  // pad

  /**
   * What the loop of `pad` computes: `'0'` is prepended until the text has at
   * least `size` characters. Text that is already long enough is returned as
   * it is, never truncated.
   */
  function Padded(s: string, size: nat): (r: string)
    ensures |r| == if |s| >= size then |s| else size
    ensures r[|r| - |s|..] == s
    ensures forall i :: 0 <= i < |r| - |s| ==> r[i] == '0'
    decreases size - |s|
  {
    if |s| >= size then s else Padded("0" + s, size)
  }

  /** Padding a digit string gives a digit string with the same value. */
  lemma {:induction false} PaddedValue(s: string, size: nat)
    requires AllDigits(s)
    ensures AllDigits(Padded(s, size))
    ensures DigitsValue(Padded(s, size)) == DigitsValue(s)
    decreases size - |s|
  {
    if |s| < size {
      LeadingZeroValue(s);
      PaddedValue("0" + s, size);
    }
  }

  /** Distinct numbers pad to distinct strings, whatever the width. */
  lemma PadInjective(a: nat, b: nat, size: nat)
    requires Padded(DecimalString(a), size) == Padded(DecimalString(b), size)
    ensures a == b
  {
    PaddedValue(DecimalString(a), size);
    PaddedValue(DecimalString(b), size);
    DecimalRoundTrip(a);
    DecimalRoundTrip(b);
  }

  /** `pad(num, size)`: the decimal text of `num`, left-padded with zeros to `size`. */
  method Pad(num: nat, size: nat) returns (s: string)
    ensures s == Padded(DecimalString(num), size)
  {
    s := DecimalString(num);
    while |s| < size
      invariant Padded(s, size) == Padded(DecimalString(num), size)
      decreases size - |s|
    {
      s := "0" + s;
    }
  }

  // ---------------------------------------------------------------------------
  // Upper case (ASCII letters)

  function UpperChar(c: char): char {
    if 'a' <= c <= 'z' then (c as int - 32) as char else c
  }

  /** `toUpperCase()`, on ASCII letters. */
  function Upper(s: string): (r: string)
    ensures |r| == |s|
    ensures forall i :: 0 <= i < |s| ==> r[i] == UpperChar(s[i])
  {
    seq(|s|, i requires 0 <= i < |s| => UpperChar(s[i]))
  }

  predicate NoLower(s: string) {
    forall i :: 0 <= i < |s| ==> !('a' <= s[i] <= 'z')
  }

  /** Upper-casing leaves no lower-case letter and changes nothing that has none. */
  lemma UpperFacts(s: string)
    ensures NoLower(Upper(s))
    ensures NoLower(s) ==> Upper(s) == s
  {
  }

  // ---------------------------------------------------------------------------
  // Identifier generation

  const DefaultCategory: string := "GEN"
  const SeqWidth: nat := 6

  /** `(this.category || "GEN").toUpperCase()`. */
  function CategoryPart(category: string): (cp: string)
    ensures NoLower(cp)
    ensures category == "" ==> cp == DefaultCategory
  {
    UpperFacts(if category == "" then DefaultCategory else category);
    Upper(if category == "" then DefaultCategory else category)
  }

  /** The counter document's key, `product:<CATEGORY>:<YEAR>`. */
  function CounterId(cp: string, year: nat): string {
    "product:" + cp + ":" + DecimalString(year)
  }

  /** The identifier built for sequence number `n`, upper-cased as a whole. */
  function FormatId(cp: string, year: nat, n: nat): string {
    Upper("PRD-" + cp + "-" + DecimalString(year) + "-" + Padded(DecimalString(n), SeqWidth))
  }

  predicate NoChar(s: string, c: char) {
    forall i :: 0 <= i < |s| ==> s[i] != c
  }

  /** Text ending in `sep` followed by a field free of `sep` splits uniquely there. */
  lemma SplitAtLast(a: string, d: string, a': string, d': string, sep: char)
    requires NoChar(d, sep) && NoChar(d', sep)
    requires a + [sep] + d == a' + [sep] + d'
    ensures a == a' && d == d'
  {
    var l := a + [sep] + d;
    var l' := a' + [sep] + d';
    assert l[|a| + 1..] == d && l'[|a'| + 1..] == d';
    assert l[|a|] == sep && l'[|a'|] == sep;
    assert |a| == |a'|;
    assert a == l[..|a|] && a' == l'[..|a'|];
    assert d == l[|a| + 1..] && d' == l'[|a'| + 1..];
  }

  lemma DigitsHaveNoSeparators(s: string)
    requires AllDigits(s)
    ensures NoChar(s, '-') && NoChar(s, ':') && NoLower(s)
  {
  }

  /**
   * The identifier determines the (category, year, sequence number) it was
   * built from: identifiers of different counter keys, or of different
   * numbers of one key, never coincide.
   */
  lemma FormatIdInjective(cp: string, year: nat, n: nat, cp': string, year': nat, n': nat)
    requires NoLower(cp) && NoLower(cp')
    requires FormatId(cp, year, n) == FormatId(cp', year', n')
    ensures cp == cp' && year == year' && n == n'
  {
    FormatIdShape(cp, year, n);
    FormatIdShape(cp', year', n');
    var y, y' := DecimalString(year), DecimalString(year');
    var p, p' := Padded(DecimalString(n), SeqWidth), Padded(DecimalString(n'), SeqWidth);
    SplitAtLast("PRD-" + cp + "-" + y, p, "PRD-" + cp' + "-" + y', p', '-');
    SplitAtLast("PRD-" + cp, y, "PRD-" + cp', y', '-');
    assert cp == ("PRD-" + cp)[4..] && cp' == ("PRD-" + cp')[4..];
    DecimalRoundTrip(year);
    DecimalRoundTrip(year');
    PadInjective(n, n', SeqWidth);
  }

  /** The final upper-casing changes nothing: every part is already upper case or digits. */
  lemma FormatIdShape(cp: string, year: nat, n: nat)
    requires NoLower(cp)
    ensures FormatId(cp, year, n)
         == "PRD-" + cp + "-" + DecimalString(year) + "-" + Padded(DecimalString(n), SeqWidth)
    ensures NoChar(DecimalString(year), '-')
    ensures NoChar(Padded(DecimalString(n), SeqWidth), '-')
  {
    var y := DecimalString(year);
    var p := Padded(DecimalString(n), SeqWidth);
    PaddedValue(DecimalString(n), SeqWidth);
    DigitsHaveNoSeparators(y);
    DigitsHaveNoSeparators(p);
    var body := "PRD-" + cp + "-" + y + "-" + p;
    assert NoLower(body) by {
      forall i | 0 <= i < |body| ensures !('a' <= body[i] <= 'z') {
        if i < 4 {
        } else if i < 4 + |cp| {
          assert body[i] == cp[i - 4];
        } else if i == 4 + |cp| {
        } else if i < 5 + |cp| + |y| {
          assert body[i] == y[i - 5 - |cp|];
        } else if i == 5 + |cp| + |y| {
        } else {
          assert body[i] == p[i - 6 - |cp| - |y|];
        }
      }
    }
    UpperFacts(body);
  }

  /** Different (category, year) pairs use different counter documents. */
  lemma CounterIdInjective(cp: string, year: nat, cp': string, year': nat)
    requires CounterId(cp, year) == CounterId(cp', year')
    ensures cp == cp' && year == year'
  {
    var y, y' := DecimalString(year), DecimalString(year');
    DigitsHaveNoSeparators(y);
    DigitsHaveNoSeparators(y');
    SplitAtLast("product:" + cp, y, "product:" + cp', y', ':');
    assert cp == ("product:" + cp)[8..] && cp' == ("product:" + cp')[8..];
    DecimalRoundTrip(year);
    DecimalRoundTrip(year');
  }

  /** The counter value of `key` in a counter collection; a missing counter reads 0. */
  function SeqOf(seqs: map<string, nat>, key: string): nat {
    if key in seqs then seqs[key] else 0
  }

  /** `id` was handed out: it is the identifier of a number some counter has reached. */
  ghost predicate IssuedIn(seqs: map<string, nat>, id: string) {
    exists cp: string, year: nat, n: nat ::
      NoLower(cp) && 1 <= n <= SeqOf(seqs, CounterId(cp, year)) && id == FormatId(cp, year, n)
  }

  /**
   * Advancing the counter of (cp, year) by one yields an identifier never
   * handed out before, and every identifier handed out before stays handed out.
   */
  lemma NextIdIsFresh(seqs: map<string, nat>, cp: string, year: nat)
    requires NoLower(cp)
    ensures var key := CounterId(cp, year);
            var n := SeqOf(seqs, key) + 1;
            && !IssuedIn(seqs, FormatId(cp, year, n))
            && IssuedIn(seqs[key := n], FormatId(cp, year, n))
            && forall id :: IssuedIn(seqs, id) ==> IssuedIn(seqs[key := n], id)
  {
    var key := CounterId(cp, year);
    var n := SeqOf(seqs, key) + 1;
    NextIdIsNew(seqs, cp, year);
    assert SeqOf(seqs[key := n], key) == n;
    IssuanceGrows(seqs, key, n);
  }

  /** The identifier of the number after a counter's value was not handed out. */
  lemma NextIdIsNew(seqs: map<string, nat>, cp: string, year: nat)
    requires NoLower(cp)
    ensures !IssuedIn(seqs, FormatId(cp, year, SeqOf(seqs, CounterId(cp, year)) + 1))
  {
    var n := SeqOf(seqs, CounterId(cp, year)) + 1;
    if IssuedIn(seqs, FormatId(cp, year, n)) {
      var cp2: string, year2: nat, n2: nat :|
        NoLower(cp2) && 1 <= n2 <= SeqOf(seqs, CounterId(cp2, year2)) && FormatId(cp, year, n) == FormatId(cp2, year2, n2);
      FormatIdInjective(cp, year, n, cp2, year2, n2);
      assert false;
    }
  }

  /** Raising a counter keeps every identifier handed out. */
  lemma IssuanceGrows(seqs: map<string, nat>, key: string, n: nat)
    requires SeqOf(seqs, key) <= n
    ensures forall id :: IssuedIn(seqs, id) ==> IssuedIn(seqs[key := n], id)
  {
    var seqs' := seqs[key := n];
    forall id | IssuedIn(seqs, id) ensures IssuedIn(seqs', id) {
      var cp2: string, year2: nat, n2: nat :|
        NoLower(cp2) && 1 <= n2 <= SeqOf(seqs, CounterId(cp2, year2)) && id == FormatId(cp2, year2, n2);
      assert SeqOf(seqs, CounterId(cp2, year2)) <= SeqOf(seqs', CounterId(cp2, year2));
    }
  }

  // ---------------------------------------------------------------------------
  // Product document

  datatype WarehouseStock = WarehouseStock(warehouseCode: string, quantity: Option<int>)

  datatype Product = Product(
    productId: Option<string>,
    name: string,
    category: string,
    description: Option<string>,
    unit: string,
    currentStock: int,
    stockByWarehouse: seq<WarehouseStock>,
    reorderLevel: int)

  /** The fields a client supplies when registering a product. */
  datatype ProductInput = ProductInput(
    productId: Option<string>,
    name: Option<string>,
    category: Option<string>,
    description: Option<string>,
    unit: Option<string>,
    reorderLevel: Option<int>)

  /**
   * A new document built from client input, with the schema defaults: category
   * `GEN`, unit `pcs`, stock 0, no warehouse subtotals, reorder level 0. The
   * stock fields cannot be set from the input.
   */
  function NewProduct(input: ProductInput): (p: Product)
    ensures p.currentStock == 0 && p.stockByWarehouse == []
    ensures p.productId == input.productId
    ensures p.category == input.category.GetOr(DefaultCategory)
    ensures p.reorderLevel == input.reorderLevel.GetOr(0)
  {
    Product(input.productId, input.name.GetOr(""), input.category.GetOr(DefaultCategory), input.description,
            input.unit.GetOr("pcs"), 0, [], input.reorderLevel.GetOr(0))
  }

  /** The schema validators: required name and warehouse codes, lower bound 0 on every stock number. */
  predicate ValidProduct(p: Product) {
    && p.name != ""
    && p.currentStock >= 0
    && p.reorderLevel >= 0
    && forall i :: 0 <= i < |p.stockByWarehouse| ==> ValidWarehouse(p.stockByWarehouse[i])
  }

  predicate ValidWarehouse(w: WarehouseStock) {
    w.warehouseCode != "" && (w.quantity.Some? ==> w.quantity.value >= 0)
  }

  /** A product whose identifier is set (the hook then leaves it alone). */
  predicate HasProductId(p: Product) {
    p.productId.Some? && p.productId.value != ""
  }

  /** `w.quantity || 0`. */
  function QuantityOrZero(w: WarehouseStock): int {
    match w.quantity
    case Some(q) => q
    case None => 0
  }

  /** The `reduce` over the warehouse list: left to right, starting from `acc`. */
  function ReduceQuantities(ws: seq<WarehouseStock>, acc: int): int {
    if ws == [] then acc else ReduceQuantities(ws[1..], acc + QuantityOrZero(ws[0]))
  }

  /** The sum of warehouse quantities, a missing quantity counting as 0. */
  function SumQuantities(ws: seq<WarehouseStock>): int {
    if ws == [] then 0 else QuantityOrZero(ws[0]) + SumQuantities(ws[1..])
  }

  lemma {:induction false} ReduceIsSum(ws: seq<WarehouseStock>, acc: int)
    ensures ReduceQuantities(ws, acc) == acc + SumQuantities(ws)
  {
    if ws != [] {
      ReduceIsSum(ws[1..], acc + QuantityOrZero(ws[0]));
    }
  }

  /**
   * `recomputeCurrentStockFromWarehouses`: the stock becomes the sum of the
   * warehouse quantities, every other field is kept, and the sum is returned.
   */
  function RecomputeCurrentStockFromWarehouses(p: Product): (r: (Product, int))
    ensures r.1 == SumQuantities(p.stockByWarehouse)
    ensures r.0 == p.(currentStock := r.1)
  {
    ReduceIsSum(p.stockByWarehouse, 0);
    var total := ReduceQuantities(p.stockByWarehouse, 0);
    (p.(currentStock := total), total)
  }

  /** A subtotal added at the end adds its quantity, or nothing when it has none. */
  lemma {:induction false} SumAppend(ws: seq<WarehouseStock>, w: WarehouseStock)
    ensures SumQuantities(ws + [w]) == SumQuantities(ws) + QuantityOrZero(w)
  {
    if ws == [] {
      assert [w][1..] == [];
    } else {
      assert (ws + [w])[1..] == ws[1..] + [w];
      SumAppend(ws[1..], w);
    }
  }

  /** With valid subtotals the sum is non-negative and bounds every subtotal. */
  lemma {:induction false} SumBounds(ws: seq<WarehouseStock>)
    requires forall i :: 0 <= i < |ws| ==> ValidWarehouse(ws[i])
    ensures SumQuantities(ws) >= 0
    ensures forall i :: 0 <= i < |ws| ==> QuantityOrZero(ws[i]) <= SumQuantities(ws)
  {
    if ws != [] {
      SumBounds(ws[1..]);
      forall i | 1 <= i < |ws| ensures QuantityOrZero(ws[i]) <= SumQuantities(ws) {
        assert ws[1..][i - 1] == ws[i];
      }
    }
  }

  /** Recomputing the stock of a valid product keeps it valid. */
  lemma RecomputeKeepsValid(p: Product)
    requires ValidProduct(p)
    ensures ValidProduct(RecomputeCurrentStockFromWarehouses(p).0)
    ensures RecomputeCurrentStockFromWarehouses(p).1 >= 0
  {
    SumBounds(p.stockByWarehouse);
  }

  // ---------------------------------------------------------------------------
  // The counter collection and the pre-save hook

  /**
   * The identifier a product has after the pre-save hook ran against the
   * counters `seqs`: its own when it has one, otherwise the one generated
   * from the next number of its (category, year) counter.
   */
  function HookId(p: Product, year: nat, seqs: map<string, nat>): (id: string)
    ensures id != ""
  {
    if HasProductId(p) then p.productId.value
    else
      var cp := CategoryPart(p.category);
      FormatId(cp, year, SeqOf(seqs, CounterId(cp, year)) + 1)
  }

  /** The `Counter` collection: one sequence number per `product:<CATEGORY>:<YEAR>` key. */
  class ProductIdCounter {
    var seqs: map<string, nat>

    constructor ()
      ensures seqs == map[]
    {
      seqs := map[];
    }

    /** `findOneAndUpdate` with `$inc: { seq: 1 }`, `new` and `upsert`: a missing counter starts at 1. */
    method Increment(counterId: string) returns (n: nat)
      modifies this
      ensures n == SeqOf(old(seqs), counterId) + 1
      ensures seqs == old(seqs)[counterId := n]
    {
      n := SeqOf(seqs, counterId) + 1;
      seqs := seqs[counterId := n];
    }

    /**
     * One identifier generation: advance the counter of (category, year) and
     * format the identifier of the new number.
     */
    method NextId(category: string, year: nat) returns (id: string, n: nat)
      modifies this
      ensures n == SeqOf(old(seqs), CounterId(CategoryPart(category), year)) + 1
      ensures seqs == old(seqs)[CounterId(CategoryPart(category), year) := n]
      ensures id == FormatId(CategoryPart(category), year, n)
    {
      var categoryPart := Upper(if category == "" then DefaultCategory else category);
      var counterId := "product:" + categoryPart + ":" + DecimalString(year);
      n := Increment(counterId);
      var suffix := Pad(n, SeqWidth);
      id := Upper("PRD-" + categoryPart + "-" + DecimalString(year) + "-" + suffix);
    }

    /**
     * The pre-save hook. A product that already has an identifier keeps it and
     * the counters are untouched; otherwise the counter of (category, year) is
     * advanced by one and the product gets the identifier of the new number,
     * one never handed out before.
     */
    method AssignProductId(p: Product, year: nat) returns (q: Product)
      modifies this
      ensures q == p.(productId := Some(HookId(p, year, old(seqs))))
      ensures HasProductId(p) ==> q == p && seqs == old(seqs)
      ensures !HasProductId(p) ==>
                var cp := CategoryPart(p.category);
                var n := SeqOf(old(seqs), CounterId(cp, year)) + 1;
                && seqs == old(seqs)[CounterId(cp, year) := n]
                && q == p.(productId := Some(FormatId(cp, year, n)))
                && !IssuedIn(old(seqs), FormatId(cp, year, n))
                && IssuedIn(seqs, FormatId(cp, year, n))
      ensures forall id :: IssuedIn(old(seqs), id) ==> IssuedIn(seqs, id)
    {
      if p.productId.Some? && p.productId.value != "" {
        return p;
      }
      NextIdIsFresh(seqs, CategoryPart(p.category), year);
      var id, n := NextId(p.category, year);
      q := p.(productId := Some(id));
    }
  }
}
