/** The checkout engine of the Andrew.DiscountDemo namespace (Program.cs).
    Rules never touch the products: each rule returns Discount records, and
    the POS folds them into the cart's applied-discount list and its total.
    C# `decimal` is modelled as exact `real`. */
module DiscountDemo {

  /** A purchased item. The engine never changes one, so it is a value. */
  datatype Product = Product(Id: int, Name: string, Price: real, Tags: set<string>)

  /** The only rule kind of this engine: every BoxCount consecutive cart items
      give PercentOff percent off their summed price. */
  datatype RuleBase = BuyMoreBoxesDiscountRule(BoxCount: int, PercentOff: int)

  /** A discount record: the rule that produced it, the products it covers and
      the amount taken off the total. */
  datatype Discount = Discount(Rule: RuleBase, Products: seq<Product>, Amount: real)

  /** Sum of the prices, in list order (LINQ `Select(p => p.Price).Sum()`). */
  function SumPrices(ps: seq<Product>): real
  {
    if |ps| == 0 then 0.0 else SumPrices(ps[..|ps| - 1]) + ps[|ps| - 1].Price
  }

  /** Sum of the amounts (LINQ `Select(d => d.Amount).Sum()`). */
  function SumAmounts(ds: seq<Discount>): real
  {
    if |ds| == 0 then 0.0 else SumAmounts(ds[..|ds| - 1]) + ds[|ds| - 1].Amount
  }

  /** `amount * percentOff / 100` in exact decimal arithmetic. */
  function Percent(amount: real, percentOff: int): real
  {
    amount * percentOff as real / 100.0
  }

  /** The record the rule emits for one full buffer of products. */
  function BoxDiscount(rule: RuleBase, box: seq<Product>): Discount
  {
    Discount(rule, box, Percent(SumPrices(box), rule.PercentOff))
  }

  /** Reference definition of what the rule yields for the items in cart order:
      one record per complete run of BoxCount items; nothing when BoxCount <= 0. */
  function BoxDiscounts(rule: RuleBase, items: seq<Product>): seq<Discount>
    decreases |items|
  {
    if rule.BoxCount <= 0 || |items| < rule.BoxCount then []
    else [BoxDiscount(rule, items[..rule.BoxCount])] + BoxDiscounts(rule, items[rule.BoxCount..])
  }

  /** All records of a run: each rule's records in rule order. */
  function AllDiscounts(rules: seq<RuleBase>, items: seq<Product>): seq<Discount>
  {
    if |rules| == 0 then []
    else AllDiscounts(rules[..|rules| - 1], items) + BoxDiscounts(rules[|rules| - 1], items)
  }

  /** Concatenation of the product lists of the records, in record order. */
  function CoveredProducts(ds: seq<Discount>): seq<Product>
  {
    if |ds| == 0 then [] else CoveredProducts(ds[..|ds| - 1]) + ds[|ds| - 1].Products
  }

  class CartContext {
    var PurchasedItems: seq<Product>
    var AppliedDiscounts: seq<Discount>
    var TotalPrice: real

    /** An empty cart filled with the loaded products. */
    constructor (items: seq<Product>)
      ensures PurchasedItems == items && AppliedDiscounts == [] && TotalPrice == 0.0
    {
      PurchasedItems := items;
      AppliedDiscounts := [];
      TotalPrice := 0.0;
    }
  }

  /** One iteration of the foreach in BuyMoreBoxesDiscountRule.Process: the
      i-th item joins the buffer, and a buffer of BoxCount items becomes a
      record and is emptied. */
  method ProcessItem(rule: RuleBase, items: seq<Product>, matched: seq<Product>, ds: seq<Discount>, i: nat, ghost start: nat)
    returns (matched': seq<Product>, ds': seq<Discount>, ghost start': nat)
    requires start <= i < |items|
    requires matched == items[start..i]
    requires rule.BoxCount > 0 ==> |matched| < rule.BoxCount && IsMultiple(start, rule.BoxCount)
    requires ds == BoxDiscounts(rule, items[..start])
    ensures start' <= i + 1 && matched' == items[start'..i + 1]
    ensures rule.BoxCount > 0 ==> |matched'| < rule.BoxCount && IsMultiple(start', rule.BoxCount)
    ensures ds' == BoxDiscounts(rule, items[..start'])
  {
    matched', ds', start' := matched + [items[i]], ds, start;
    assert matched' == items[start..i + 1];
    if |matched'| == rule.BoxCount {
      BoxDiscountsFullBox(rule, items, i + 1);
      assert IsMultiple(i + 1, rule.BoxCount);
      ds' := ds + [BoxDiscount(rule, matched')];
      matched' := [];
      start' := i + 1;
    }
  }

  /** BuyMoreBoxesDiscountRule.Process: buffers the cart items in order and emits
      a record each time the buffer holds exactly BoxCount items. It only reads
      the cart (no modifies clause). */
  method Process(rule: RuleBase, cart: CartContext) returns (ds: seq<Discount>)
    ensures ds == BoxDiscounts(rule, cart.PurchasedItems)
  {
    var items := cart.PurchasedItems;
    var matched: seq<Product> := [];
    ds := [];
    var i := 0;
    ghost var start := 0;
    while i < |items|
      invariant 0 <= start <= i <= |items|
      invariant matched == items[start..i]
      invariant rule.BoxCount > 0 ==> |matched| < rule.BoxCount && IsMultiple(start, rule.BoxCount)
      invariant ds == BoxDiscounts(rule, items[..start])
    {
      matched, ds, start := ProcessItem(rule, items, matched, ds, i, start);
      i := i + 1;
    }
    BoxDiscountsPartialBox(rule, items, |matched|);
  }

  /** The step where the buffer fills up: the prefix up to item i gains the
      record of its last box. */
  lemma BoxDiscountsFullBox(rule: RuleBase, items: seq<Product>, i: nat)
    requires rule.BoxCount > 0 && rule.BoxCount <= i <= |items|
    requires IsMultiple(i - rule.BoxCount, rule.BoxCount)
    ensures BoxDiscounts(rule, items[..i]) ==
      BoxDiscounts(rule, items[..i - rule.BoxCount]) + [BoxDiscount(rule, items[i - rule.BoxCount..i])]
  {
    var j := i - rule.BoxCount;
    BoxDiscountsSnoc(rule, items[..j], items[j..i]);
    assert items[..j] + items[j..i] == items[..i];
  }

  /** What is left in the buffer at the end yields nothing. */
  lemma BoxDiscountsPartialBox(rule: RuleBase, items: seq<Product>, m: nat)
    requires m <= |items|
    requires rule.BoxCount > 0 ==> m < rule.BoxCount && IsMultiple(|items| - m, rule.BoxCount)
    ensures BoxDiscounts(rule, items[..|items| - m]) == BoxDiscounts(rule, items)
  {
    if rule.BoxCount > 0 {
      BoxDiscountsTrailing(rule, items[..|items| - m], items[|items| - m..]);
      assert items[..|items| - m] + items[|items| - m..] == items;
    } else {
      BoxDiscountsNone(rule, items);
      BoxDiscountsNone(rule, items[..|items| - m]);
    }
  }

  /** n is a whole number of boxes of size k. */
  ghost predicate IsMultiple(n: int, k: int)
    requires k > 0
    decreases n
  {
    n == 0 || (n >= k && IsMultiple(n - k, k))
  }

  lemma {:induction false} BoxDiscountsNone(rule: RuleBase, items: seq<Product>)
    requires rule.BoxCount <= 0
    ensures BoxDiscounts(rule, items) == []
  {
  }

  /** Appending a full box to a whole number of boxes appends one record. */
  lemma {:induction false} BoxDiscountsSnoc(rule: RuleBase, items: seq<Product>, box: seq<Product>)
    requires rule.BoxCount > 0 && IsMultiple(|items|, rule.BoxCount) && |box| == rule.BoxCount
    ensures BoxDiscounts(rule, items + box) == BoxDiscounts(rule, items) + [BoxDiscount(rule, box)]
    decreases |items|
  {
    var k := rule.BoxCount;
    if |items| == 0 {
      assert (items + box)[..k] == box;
      assert (items + box)[k..] == [];
    } else {
      assert (items + box)[..k] == items[..k];
      assert (items + box)[k..] == items[k..] + box;
      BoxDiscountsSnoc(rule, items[k..], box);
    }
  }

  /** A trailing partial box changes nothing. */
  lemma {:induction false} BoxDiscountsTrailing(rule: RuleBase, items: seq<Product>, rest: seq<Product>)
    requires rule.BoxCount > 0 && IsMultiple(|items|, rule.BoxCount) && |rest| < rule.BoxCount
    ensures BoxDiscounts(rule, items + rest) == BoxDiscounts(rule, items)
    decreases |items|
  {
    var k := rule.BoxCount;
    if |items| > 0 {
      assert (items + rest)[..k] == items[..k];
      assert (items + rest)[k..] == items[k..] + rest;
      BoxDiscountsTrailing(rule, items[k..], rest);
    }
  }

  /** Dafny's `/` on a positive divisor, pinned down by quotient and remainder. */
  lemma DivUnique(n: int, k: int, q: int, r: int)
    requires k > 0 && 0 <= r < k && n == q * k + r
    ensures n / k == q
  {
    var d := n / k;
    if d > q {
      MulNonNegative(d - q - 1, k);
    } else if d < q {
      MulNonNegative(q - d - 1, k);
    }
  }

  lemma MulNonNegative(a: int, b: int)
    requires a >= 0 && b >= 0
    ensures a * b >= 0
  {
  }

  lemma SliceShift(items: seq<Product>, k: nat, lo: nat, hi: nat)
    requires k <= |items| && lo <= hi <= |items| - k
    ensures items[k..][lo..hi] == items[lo + k..hi + k]
  {
  }

  lemma PrefixSplit(items: seq<Product>, k: nat, n: nat)
    requires k <= |items| && n <= |items| - k
    ensures items[..n + k] == items[..k] + items[k..][..n]
  {
  }

  lemma MulSucc(a: int, k: int)
    ensures (a + 1) * k == a * k + k
  {
  }

  /** With BoxCount k > 0 and m records, m * k <= n < m * k + k; with
      BoxCount <= 0 there are none. */
  lemma {:induction false} BoxDiscountsLength(rule: RuleBase, items: seq<Product>)
    ensures rule.BoxCount <= 0 ==> BoxDiscounts(rule, items) == []
    ensures rule.BoxCount > 0 ==>
      |BoxDiscounts(rule, items)| * rule.BoxCount <= |items| < |BoxDiscounts(rule, items)| * rule.BoxCount + rule.BoxCount
    decreases |items|
  {
    var k := rule.BoxCount;
    if k > 0 && |items| >= k {
      BoxDiscountsLength(rule, items[k..]);
      MulSucc(|BoxDiscounts(rule, items[k..])|, k);
    }
  }

  /** Record i covers items i*k .. i*k+k-1 of the cart and comes from the
      rule itself. */
  lemma {:induction false} BoxDiscountsWindows(rule: RuleBase, items: seq<Product>, i: nat)
    requires i < |BoxDiscounts(rule, items)|
    ensures rule.BoxCount > 0 && (i + 1) * rule.BoxCount <= |items|
    ensures BoxDiscounts(rule, items)[i] == BoxDiscount(rule, items[i * rule.BoxCount..(i + 1) * rule.BoxCount])
    decreases |items|
  {
    var k := rule.BoxCount;
    var rest := items[k..];
    if i == 0 {
      assert 0 * k == 0 && 1 * k == k;
    } else {
      var j := i - 1;
      assert BoxDiscounts(rule, items)[i] == BoxDiscounts(rule, rest)[j];
      BoxDiscountsWindows(rule, rest, j);
      MulSucc(j, k);
      MulSucc(i, k);
      var lo, hi := j * k, (j + 1) * k;
      assert i * k == lo + k && (i + 1) * k == hi + k;
      SliceShift(items, k, lo, hi);
    }
  }

  /** For n items and BoxCount k > 0 the rule yields exactly n / k records. */
  lemma BoxDiscountsCount(rule: RuleBase, items: seq<Product>)
    requires rule.BoxCount > 0
    ensures |BoxDiscounts(rule, items)| == |items| / rule.BoxCount
  {
    BoxDiscountsLength(rule, items);
    var m := |BoxDiscounts(rule, items)|;
    DivUnique(|items|, rule.BoxCount, m, |items| - m * rule.BoxCount);
  }

  /** The records cover exactly the first (n / k) * k items, in cart order, so
      the trailing n mod k items are in no record. */
  lemma BoxDiscountsCover(rule: RuleBase, items: seq<Product>)
    requires rule.BoxCount > 0
    ensures CoveredProducts(BoxDiscounts(rule, items)) == items[..(|items| / rule.BoxCount) * rule.BoxCount]
  {
    BoxDiscountsCount(rule, items);
    BoxDiscountsCoverBoxes(rule, items);
  }

  lemma {:induction false} BoxDiscountsCoverBoxes(rule: RuleBase, items: seq<Product>)
    requires rule.BoxCount > 0
    ensures |BoxDiscounts(rule, items)| * rule.BoxCount <= |items|
    ensures CoveredProducts(BoxDiscounts(rule, items)) == items[..|BoxDiscounts(rule, items)| * rule.BoxCount]
    decreases |items|
  {
    var k := rule.BoxCount;
    if |items| >= k {
      var rest := items[k..];
      BoxDiscountsCoverBoxes(rule, rest);
      CoveredPrepend(BoxDiscount(rule, items[..k]), BoxDiscounts(rule, rest));
      var m := |BoxDiscounts(rule, rest)|;
      MulSucc(m, k);
      var n := m * k;
      PrefixSplit(items, k, n);
    }
  }


  lemma {:induction false} CoveredPrepend(d: Discount, ds: seq<Discount>)
    ensures CoveredProducts([d] + ds) == d.Products + CoveredProducts(ds)
    decreases |ds|
  {
    if |ds| > 0 {
      var last := ds[|ds| - 1];
      assert ([d] + ds)[..|ds|] == [d] + ds[..|ds| - 1];
      CoveredPrepend(d, ds[..|ds| - 1]);
    } else {
      assert ([d] + ds)[..0] == [];
    }
  }

  lemma {:induction false} SumPricesNonNegative(ps: seq<Product>)
    requires forall i :: 0 <= i < |ps| ==> ps[i].Price >= 0.0
    ensures SumPrices(ps) >= 0.0
    decreases |ps|
  {
    if |ps| > 0 {
      SumPricesNonNegative(ps[..|ps| - 1]);
    }
  }

  /** With non-negative prices and 0 <= PercentOff, every record's amount is
      non-negative; with PercentOff <= 100 it is at most the summed price of
      the products it covers. Every record names the rule that produced it. */
  lemma {:induction false} DiscountAmountBounds(rule: RuleBase, items: seq<Product>)
    requires forall j :: 0 <= j < |items| ==> items[j].Price >= 0.0
    requires 0 <= rule.PercentOff
    ensures forall d :: d in BoxDiscounts(rule, items) ==>
      d.Rule == rule && 0.0 <= d.Amount &&
      (rule.PercentOff <= 100 ==> d.Amount <= SumPrices(d.Products))
    decreases |items|
  {
    var k := rule.BoxCount;
    if k > 0 && |items| >= k {
      var head := BoxDiscount(rule, items[..k]);
      DiscountAmountBounds(rule, items[k..]);
      SumPricesNonNegative(items[..k]);
      PercentBounds(SumPrices(items[..k]), rule.PercentOff);
      assert BoxDiscounts(rule, items) == [head] + BoxDiscounts(rule, items[k..]);
    }
  }

  lemma PercentBounds(amount: real, percentOff: int)
    requires 0.0 <= amount && 0 <= percentOff
    ensures 0.0 <= Percent(amount, percentOff)
    ensures percentOff <= 100 ==> Percent(amount, percentOff) <= amount
  {
    var p := percentOff as real;
    assert 0.0 <= amount * p;
    if percentOff <= 100 {
      assert 0.0 <= amount * (100.0 - p);
      assert amount * p <= amount * 100.0;
    }
  }

  lemma PercentDistributes(a: real, b: real, percentOff: int)
    ensures Percent(a + b, percentOff) == Percent(a, percentOff) + Percent(b, percentOff)
  {
  }

  lemma {:induction false} SumAmountsAppend(a: seq<Discount>, b: seq<Discount>)
    ensures SumAmounts(a + b) == SumAmounts(a) + SumAmounts(b)
    decreases |b|
  {
    if |b| == 0 {
      assert a + b == a;
    } else {
      assert (a + b)[..|a + b| - 1] == a + b[..|b| - 1];
      SumAmountsAppend(a, b[..|b| - 1]);
    }
  }

  lemma {:induction false} SumPricesAppend(a: seq<Product>, b: seq<Product>)
    ensures SumPrices(a + b) == SumPrices(a) + SumPrices(b)
    decreases |b|
  {
    if |b| == 0 {
      assert a + b == a;
    } else {
      assert (a + b)[..|a + b| - 1] == a + b[..|b| - 1];
      SumPricesAppend(a, b[..|b| - 1]);
    }
  }

  /** One rule takes PercentOff percent of the summed price of the items it
      covers off the total; with BoxDiscountsCover these are the first
      (n / k) * k items of the cart. */
  lemma {:induction false} BoxDiscountsTotal(rule: RuleBase, items: seq<Product>)
    ensures SumAmounts(BoxDiscounts(rule, items)) ==
      Percent(SumPrices(CoveredProducts(BoxDiscounts(rule, items))), rule.PercentOff)
    decreases |items|
  {
    var k := rule.BoxCount;
    if k > 0 && |items| >= k {
      var head, rest := BoxDiscount(rule, items[..k]), BoxDiscounts(rule, items[k..]);
      BoxDiscountsTotal(rule, items[k..]);
      SumAmountsAppend([head], rest);
      assert [head][..0] == [];
      CoveredPrepend(head, rest);
      SumPricesAppend(head.Products, CoveredProducts(rest));
      PercentDistributes(SumPrices(head.Products), SumPrices(CoveredProducts(rest)), rule.PercentOff);
    }
  }

  class POS {
    var ActivedRules: seq<RuleBase>

    constructor (rules: seq<RuleBase>)
      ensures ActivedRules == rules
    {
      ActivedRules := rules;
    }

    /** Resets the applied discounts, starts from the summed prices, then for
        each rule in order appends its records and subtracts their amounts.
        The outcome depends only on the items and the rules, never on what an
        earlier run left in the cart. */
    method CheckoutProcess(cart: CartContext) returns (ok: bool)
      modifies cart
      ensures ok
      ensures cart.PurchasedItems == old(cart.PurchasedItems)
      ensures cart.AppliedDiscounts == AllDiscounts(ActivedRules, cart.PurchasedItems)
      ensures cart.TotalPrice == SumPrices(cart.PurchasedItems) - SumAmounts(cart.AppliedDiscounts)
    {
      cart.AppliedDiscounts := [];
      cart.TotalPrice := SumPrices(cart.PurchasedItems);
      for i := 0 to |ActivedRules|
        invariant cart.PurchasedItems == old(cart.PurchasedItems)
        invariant cart.AppliedDiscounts == AllDiscounts(ActivedRules[..i], cart.PurchasedItems)
        invariant cart.TotalPrice == SumPrices(cart.PurchasedItems) - SumAmounts(cart.AppliedDiscounts)
      {
        var discounts := Process(ActivedRules[i], cart);
        SumAmountsAppend(cart.AppliedDiscounts, discounts);
        assert ActivedRules[..i + 1][..i] == ActivedRules[..i];
        cart.AppliedDiscounts := cart.AppliedDiscounts + discounts;
        cart.TotalPrice := cart.TotalPrice - SumAmounts(discounts);
      }
      assert ActivedRules[..|ActivedRules|] == ActivedRules;
      ok := true;
    }
  }

  /** Two checkouts in a row on the same cart and rules agree on the applied
      records and the total: the second run reproduces the first one's. */
  method CheckoutTwice(pos: POS, cart: CartContext) returns (first: seq<Discount>, firstTotal: real)
    modifies cart
    ensures cart.PurchasedItems == old(cart.PurchasedItems)
    ensures first == AllDiscounts(pos.ActivedRules, cart.PurchasedItems)
    ensures firstTotal == SumPrices(cart.PurchasedItems) - SumAmounts(first)
    ensures cart.AppliedDiscounts == first && cart.TotalPrice == firstTotal
  {
    var ok1 := pos.CheckoutProcess(cart);
    first, firstTotal := cart.AppliedDiscounts, cart.TotalPrice;
    var ok2 := pos.CheckoutProcess(cart);
  }
}
