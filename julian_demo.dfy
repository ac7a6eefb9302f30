/** The checkout engine of the JulianDemo namespace (JulianDemo/CartContext.cs).
    Rules write the Discount and IsDiscounted fields of the cart's products in
    place; the POS runs them in list order and then recomputes the total as the
    sum of the net prices. C# `decimal` is modelled as exact `real`; the
    `Queue<T>.Dequeue` exception is modelled as a `false` completion flag. */
module JulianDemo {

  datatype Option<T> = None | Some(value: T)

  // ---------------------------------------------------------------------------
  // Data model
  // ---------------------------------------------------------------------------

  /** A purchased item. Only Discount and IsDiscounted are ever written. */
  class Product {
    const Id: int
    const SKU: string
    const Price: real
    const Tags: set<string>
    var Discount: real
    var IsDiscounted: bool

    constructor (id: int, sku: string, price: real, tags: set<string>)
      ensures Id == id && SKU == sku && Price == price && Tags == tags
      ensures Discount == 0.0 && !IsDiscounted
    {
      Id, SKU, Price, Tags := id, sku, price, tags;
      Discount, IsDiscounted := 0.0, false;
    }
  }

  /** No product object occurs twice in the cart. */
  ghost predicate Distinct(items: seq<Product>)
  {
    forall i, j :: 0 <= i < |items| && 0 <= j < |items| && i != j ==> items[i] != items[j]
  }

  class CartContext {
    const PurchasedItems: seq<Product>
    var TotalPrice: real

    ghost predicate Valid()
    {
      Distinct(PurchasedItems)
    }

    /** A cart holding the loaded products. */
    constructor (items: seq<Product>)
      requires Distinct(items)
      ensures Valid() && PurchasedItems == items && TotalPrice == 0.0
    {
      PurchasedItems := items;
      TotalPrice := 0.0;
    }
  }

  /** The value of one product as the rules see it. */
  datatype Line = Line(SKU: string, Price: real, Tags: set<string>, Discount: real, IsDiscounted: bool)

  function Net(l: Line): real
  {
    l.Price - l.Discount
  }

  function Snap(p: Product): Line
    reads p
  {
    Line(p.SKU, p.Price, p.Tags, p.Discount, p.IsDiscounted)
  }

  /** The cart's products as values, in cart order. */
  function View(items: seq<Product>): (s: seq<Line>)
    reads items
    ensures |s| == |items| && forall i :: 0 <= i < |items| ==> s[i] == Snap(items[i])
  {
    seq(|items|, i requires 0 <= i < |items| reads items => Snap(items[i]))
  }

  /** `Price - Discount` summed over the cart (CheckoutProcess's total). */
  function NetTotal(s: seq<Line>): real
  {
    if |s| == 0 then 0.0 else NetTotal(s[..|s| - 1]) + Net(s[|s| - 1])
  }

  function SumPrices(s: seq<Line>): real
  {
    if |s| == 0 then 0.0 else SumPrices(s[..|s| - 1]) + s[|s| - 1].Price
  }

  function SumDiscounts(s: seq<Line>): real
  {
    if |s| == 0 then 0.0 else SumDiscounts(s[..|s| - 1]) + s[|s| - 1].Discount
  }

  /** The total is the summed prices minus the summed discounts. */
  lemma {:induction false} NetTotalSplit(s: seq<Line>)
    ensures NetTotal(s) == SumPrices(s) - SumDiscounts(s)
  {
    if |s| > 0 {
      NetTotalSplit(s[..|s| - 1]);
    }
  }

  /** `amount * percentOff / 100` in exact decimal arithmetic. */
  function Percent(amount: real, percentOff: int): real
  {
    amount * percentOff as real / 100.0
  }

  // ---------------------------------------------------------------------------
  // LINQ queries: Where (as positions in cart order) and a stable
  // OrderByDescending on the net price
  // ---------------------------------------------------------------------------

  ghost predicate Increasing(xs: seq<nat>)
  {
    forall p, q :: 0 <= p < q < |xs| ==> xs[p] < xs[q]
  }

  /** The predicates the rules hand to LINQ's Where: an eligible line for a
      tag, or (ComplexDiscountRule) a line carrying both sub-rules' targets
      and no discount. */
  datatype Filter = Tagged(tag: string) | Doubled(d1: Rule, d2: Rule)

  predicate Keeps(f: Filter, l: Line)
  {
    match f
    case Tagged(tag) => Eligible(l, tag)
    case Doubled(d1, d2) => HasTarget(l, d1) && HasTarget(l, d2) && !l.IsDiscounted
  }

  /** Positions of the lines the filter keeps, in cart order. */
  function Where(s: seq<Line>, f: Filter): (r: seq<nat>)
    ensures Increasing(r) && Within(r, |s|)
    ensures forall i :: i in r <==> 0 <= i < |s| && Keeps(f, s[i])
  {
    if |s| == 0 then []
    else
      var front := Where(s[..|s| - 1], f);
      assert forall i :: 0 <= i < |s| - 1 ==> s[..|s| - 1][i] == s[i];
      if Keeps(f, s[|s| - 1]) then
        assert forall i :: i in front + [|s| - 1] <==> i in front || i == |s| - 1;
        front + [|s| - 1]
      else front
  }

  predicate Eligible(l: Line, tag: string)
  {
    tag in l.Tags && !l.IsDiscounted
  }

  /** Line i comes before line j in a descending-by-net stable order. */
  ghost predicate Before(s: seq<Line>, i: nat, j: nat)
    requires i < |s| && j < |s|
  {
    Net(s[i]) > Net(s[j]) || (Net(s[i]) == Net(s[j]) && i < j)
  }

  /** Every position in r is a position of the cart. */
  ghost predicate Within(r: seq<nat>, n: nat)
  {
    forall k :: 0 <= k < |r| ==> r[k] < n
  }

  ghost predicate Ranked(s: seq<Line>, r: seq<nat>)
    requires Within(r, |s|)
  {
    forall p, q :: 0 <= p < q < |r| ==> Before(s, r[p], r[q])
  }

  function InsertByNet(s: seq<Line>, x: nat, r: seq<nat>): (r': seq<nat>)
    requires x < |s| && Within(r, |s|)
    ensures multiset(r') == multiset(r) + multiset{x}
    ensures Within(r', |s|)
  {
    if |r| == 0 then [x]
    else if Net(s[r[0]]) < Net(s[x]) then [x] + r
    else
      assert r == [r[0]] + r[1..];
      [r[0]] + InsertByNet(s, x, r[1..])
  }

  lemma {:induction false} InsertByNetRanked(s: seq<Line>, x: nat, r: seq<nat>)
    requires x < |s| && Within(r, x)
    requires Ranked(s, r)
    ensures Ranked(s, InsertByNet(s, x, r))
    decreases |r|
  {
    if |r| > 0 && Net(s[r[0]]) >= Net(s[x]) {
      InsertByNetRanked(s, x, r[1..]);
      var rest := InsertByNet(s, x, r[1..]);
      assert r == [r[0]] + r[1..];
      forall y | y in rest ensures Before(s, r[0], y) {
        assert y in multiset(rest);
        if y != x {
          assert y in multiset(r[1..]);
          var q :| 0 <= q < |r[1..]| && r[1..][q] == y;
          assert r[q + 1] == y;
        }
      }
    }
  }

  /** LINQ OrderByDescending on the net price: a stable insertion sort whose
      result is a permutation of its input. */
  function SortByNetDesc(s: seq<Line>, xs: seq<nat>): (r: seq<nat>)
    requires Within(xs, |s|)
    ensures multiset(r) == multiset(xs)
    ensures Within(r, |s|)
  {
    if |xs| == 0 then []
    else
      assert xs == xs[..|xs| - 1] + [xs[|xs| - 1]];
      InsertByNet(s, xs[|xs| - 1], SortByNetDesc(s, xs[..|xs| - 1]))
  }

  /** Sorting positions given in cart order ranks them by net price, equal
      nets keeping cart order (OrderByDescending is stable). */
  lemma {:induction false} SortByNetDescRanked(s: seq<Line>, xs: seq<nat>)
    requires Within(xs, |s|)
    requires Increasing(xs)
    ensures Ranked(s, SortByNetDesc(s, xs))
  {
    if |xs| > 0 {
      var front := xs[..|xs| - 1];
      assert xs == front + [xs[|xs| - 1]];
      var sorted := SortByNetDesc(s, front);
      SortByNetDescRanked(s, front);
      forall k | 0 <= k < |sorted| ensures sorted[k] < xs[|xs| - 1] {
        assert sorted[k] in multiset(front);
        var j :| 0 <= j < |front| && front[j] == sorted[k];
        assert xs[j] == sorted[k];
      }
      InsertByNetRanked(s, xs[|xs| - 1], sorted);
    }
  }

  /** `items.Where(p => p.Tags.Contains(tag) && !p.IsDiscounted).OrderByDescending(p => p.Price - p.Discount)`. */
  function EligibleByNetDesc(s: seq<Line>, tag: string): (r: seq<nat>)
    ensures Within(r, |s|)
  {
    SortByNetDesc(s, Where(s, Tagged(tag)))
  }

  /** The eligible lines, each exactly once, ranked by net price with equal
      nets in cart order. */
  lemma EligibleByNetDescRanked(s: seq<Line>, tag: string)
    ensures Ranked(s, EligibleByNetDesc(s, tag))
    ensures forall i :: i in EligibleByNetDesc(s, tag) <==> 0 <= i < |s| && Eligible(s[i], tag)
    ensures |EligibleByNetDesc(s, tag)| == |Where(s, Tagged(tag))|
  {
    var w := Where(s, Tagged(tag));
    var r := EligibleByNetDesc(s, tag);
    SortByNetDescRanked(s, w);
    assert multiset(r) == multiset(w);
    forall i ensures i in r <==> i in w {
      assert i in r <==> i in multiset(r);
      assert i in w <==> i in multiset(w);
    }
    assert |r| == |multiset(r)| == |multiset(w)| == |w|;
  }

  // ---------------------------------------------------------------------------
  // DiscountRule6: among the eligible items, the dearer half by net price get
  // PercentOff off their net price; every eligible item is marked discounted
  // ---------------------------------------------------------------------------

  ghost function Elements(q: seq<nat>): set<nat>
  {
    set x | x in q
  }

  /** The positions of distinct elements form a set of the same size. */
  lemma {:induction false} SetOfDistinct(q: seq<nat>)
    requires forall p, r :: 0 <= p < r < |q| ==> q[p] != q[r]
    ensures |Elements(q)| == |q|
  {
    if |q| == 0 {
      assert Elements(q) == {};
    } else {
      var front := q[..|q| - 1];
      SetOfDistinct(front);
      var last := q[|q| - 1];
      assert q == front + [last];
      assert Elements(q) == Elements(front) + {last};
      assert last !in Elements(front) by {
        forall p | 0 <= p < |front| ensures front[p] != last {
          assert front[p] == q[p];
        }
      }
    }
  }

  /** The eligible-by-net queue holds no position twice. */
  lemma EligibleByNetDescDistinct(s: seq<Line>, tag: string)
    ensures var order := EligibleByNetDesc(s, tag);
      forall p, q :: 0 <= p < q < |order| ==> order[p] != order[q]
  {
    EligibleByNetDescRanked(s, tag);
    RankedDistinct(s, EligibleByNetDesc(s, tag));
  }

  /** A ranked queue holds no position twice. */
  lemma RankedDistinct(s: seq<Line>, r: seq<nat>)
    requires Within(r, |s|) && Ranked(s, r)
    ensures forall p, q :: 0 <= p < q < |r| ==> r[p] != r[q]
  {
    forall p, q | 0 <= p < q < |r| ensures r[p] != r[q] {
      assert Before(s, r[p], r[q]);
    }
  }

  /** Positions of the eligible lines. */
  ghost function EligibleSet(s: seq<Line>, tag: string): set<nat>
  {
    set k: nat | k < |s| && Eligible(s[k], tag)
  }

  /** The number of eligible items, `items.Count()`. */
  lemma EligibleCount(s: seq<Line>, tag: string)
    ensures |EligibleByNetDesc(s, tag)| == |EligibleSet(s, tag)|
  {
    var w := Where(s, Tagged(tag));
    EligibleByNetDescRanked(s, tag);
    SetOfDistinct(w);
    assert Elements(w) == EligibleSet(s, tag);
  }

  /** The first `items.Count() / 2` items of the ranked queue. */
  function TopHalf(s: seq<Line>, tag: string): seq<nat>
  {
    var order := EligibleByNetDesc(s, tag);
    order[..|order| / 2]
  }

  function Cut6(l: Line, percentOff: int): Line
  {
    l.(Discount := l.Discount + Percent(Net(l), percentOff), IsDiscounted := true)
  }

  /** The cart after walking `order`: the first half get the percentage, all
      of it is marked discounted. */
  function Rule6With(s: seq<Line>, order: seq<nat>, percentOff: int): (r: seq<Line>)
    ensures |r| == |s|
  {
    seq(|s|, i requires 0 <= i < |s| =>
      if i in order[..|order| / 2] then Cut6(s[i], percentOff)
      else if i in order then s[i].(IsDiscounted := true)
      else s[i])
  }

  /** What DiscountRule6 does to the line at a queue position: the percentage
      when the position is in the first half, else only the mark. */
  function Rule6Item(l: Line, inFirstHalf: bool, percentOff: int): Line
  {
    if inFirstHalf then Cut6(l, percentOff) else l.(IsDiscounted := true)
  }

  /** A cart that treats each queued line as its queue position says, and
      leaves every other line alone, is the cart `Rule6With` describes. */
  lemma Rule6WithByPositions(s: seq<Line>, order: seq<nat>, percentOff: int, half: nat, lines: seq<Line>)
    requires Within(order, |s|) && |lines| == |s| && half == |order| / 2
    requires forall a, b :: 0 <= a < b < |order| ==> order[a] != order[b]
    requires forall p :: 0 <= p < |order| ==> lines[order[p]] == Rule6Item(s[order[p]], p < half, percentOff)
    requires forall k :: 0 <= k < |s| && k !in order ==> lines[k] == s[k]
    ensures lines == Rule6With(s, order, percentOff)
  {
    var r := Rule6With(s, order, percentOff);
    forall k | 0 <= k < |s| ensures lines[k] == r[k] {
      if k in order {
        var p :| 0 <= p < |order| && order[p] == k;
        if p >= |order| / 2 {
          forall a | 0 <= a < |order| / 2 ensures order[..|order| / 2][a] != k {
            assert order[a] != order[p];
          }
        }
      }
    }
  }

  /** The cart after DiscountRule6.Process. */
  function DiscountRule6Spec(s: seq<Line>, tag: string, percentOff: int): (r: seq<Line>)
    ensures |r| == |s|
  {
    Rule6With(s, EligibleByNetDesc(s, tag), percentOff)
  }

  /** Every eligible line is marked discounted, and a line that is not
      eligible is left exactly as it was. */
  lemma DiscountRule6Flags(s: seq<Line>, tag: string, percentOff: int)
    ensures forall i :: 0 <= i < |s| ==>
      DiscountRule6Spec(s, tag, percentOff)[i].IsDiscounted == (s[i].IsDiscounted || tag in s[i].Tags)
    ensures forall i :: 0 <= i < |s| && !Eligible(s[i], tag) ==> DiscountRule6Spec(s, tag, percentOff)[i] == s[i]
  {
    EligibleByNetDescRanked(s, tag);
  }

  /** The positions that get the percentage. */
  ghost function Rule6Chosen(s: seq<Line>, tag: string): set<nat>
  {
    set k: nat | k < |s| && k in TopHalf(s, tag)
  }

  /** Exactly half (rounded down) of the eligible items get the percentage
      off their net price, and only eligible ones. */
  lemma DiscountRule6Half(s: seq<Line>, tag: string, percentOff: int)
    ensures Rule6Chosen(s, tag) <= EligibleSet(s, tag)
    ensures |Rule6Chosen(s, tag)| == |EligibleSet(s, tag)| / 2
    ensures forall k :: k in Rule6Chosen(s, tag) ==> DiscountRule6Spec(s, tag, percentOff)[k] == Cut6(s[k], percentOff)
    ensures forall k :: k in EligibleSet(s, tag) - Rule6Chosen(s, tag) ==>
      DiscountRule6Spec(s, tag, percentOff)[k] == s[k].(IsDiscounted := true)
  {
    var order := EligibleByNetDesc(s, tag);
    var half := TopHalf(s, tag);
    EligibleByNetDescRanked(s, tag);
    RankedDistinct(s, order);
    EligibleCount(s, tag);
    SetOfDistinct(half);
    assert Rule6Chosen(s, tag) == Elements(half);
  }

  /** The items that get the percentage are the dearest: each is at least as
      dear as every eligible item that does not, a tie going to the earlier
      cart position. */
  lemma DiscountRule6Dearer(s: seq<Line>, tag: string, i: nat, j: nat)
    requires i in Rule6Chosen(s, tag) && j in EligibleSet(s, tag) - Rule6Chosen(s, tag)
    ensures Net(s[i]) > Net(s[j]) || (Net(s[i]) == Net(s[j]) && i < j)
  {
    var order := EligibleByNetDesc(s, tag);
    var half := TopHalf(s, tag);
    EligibleByNetDescRanked(s, tag);
    var p :| 0 <= p < |half| && half[p] == i;
    var q :| 0 <= q < |order| && order[q] == j;
    assert Before(s, order[p], order[q]);
  }

  /** One iteration of the foreach in DiscountRule6.Process: the i-th
      product in net-price order is discounted while the count of the first
      half lasts. */
  method Rule6Iteration(items: seq<Product>, ghost s0: seq<Line>, order: seq<nat>, ghost half: nat,
                        percentOff: int, count: int, i: nat)
    returns (count': int)
    requires Distinct(items) && |s0| == |items| && Within(order, |items|) && i < |order|
    requires forall p, q :: 0 <= p < q < |order| ==> order[p] != order[q]
    requires count == if i <= half then half - i else 0
    requires forall p :: 0 <= p < i ==> Snap(items[order[p]]) == Rule6Item(s0[order[p]], p < half, percentOff)
    requires forall p :: i <= p < |order| ==> Snap(items[order[p]]) == s0[order[p]]
    requires forall k :: 0 <= k < |items| && k !in order ==> Snap(items[k]) == s0[k]
    modifies items
    ensures count' == if i + 1 <= half then half - (i + 1) else 0
    ensures forall p :: 0 <= p < i + 1 ==> Snap(items[order[p]]) == Rule6Item(s0[order[p]], p < half, percentOff)
    ensures forall p :: i + 1 <= p < |order| ==> Snap(items[order[p]]) == s0[order[p]]
    ensures forall k :: 0 <= k < |items| && k !in order ==> Snap(items[k]) == s0[k]
  {
    count' := count;
    var product := items[order[i]];
    label Start:
    DiscountProduct6(product, count > 0, percentOff);
    if count > 0 {
      count' := count - 1;
    }
    forall p | 0 <= p < |order| && p != i
      ensures Snap(items[order[p]]) == old@Start(Snap(items[order[p]]))
    {
      assert order[p] != order[i];
    }
  }

  /** One step of the DiscountRule6 loop: a product in the first half gets the
      percentage cut off its remaining price; every visited product is flagged. */
  method DiscountProduct6(product: Product, inFirstHalf: bool, percentOff: int)
    modifies product
    ensures Snap(product) == Rule6Item(old(Snap(product)), inFirstHalf, percentOff)
  {
    if inFirstHalf {
      product.Discount := product.Discount + Percent(product.Price - product.Discount, percentOff);
    }
    product.IsDiscounted := true;
  }

  /** DiscountRule6.Process (JulianDemo/CartContext.cs). The query is
      enumerated twice, by `Count()` and by the `foreach`. Both passes see the
      same order: nothing is written before the `foreach` starts, and
      `OrderByDescending` filters and sorts the whole cart before it yields
      the first product, so the writes in the loop do not change the order
      it walks. */
  method ProcessDiscountRule6(cart: CartContext, tag: string, percentOff: int)
    requires cart.Valid()
    modifies cart.PurchasedItems
    ensures View(cart.PurchasedItems) == DiscountRule6Spec(old(View(cart.PurchasedItems)), tag, percentOff)
  {
    var items := cart.PurchasedItems;
    ghost var s0 := View(items);
    var order := EligibleByNetDesc(View(items), tag);
    EligibleByNetDescDistinct(s0, tag);
    var count := |order| / 2;
    ghost var half := count;
    for i := 0 to |order|
      invariant count == if i <= half then half - i else 0
      invariant forall p :: 0 <= p < i ==> Snap(items[order[p]]) == Rule6Item(s0[order[p]], p < half, percentOff)
      invariant forall p :: i <= p < |order| ==> Snap(items[order[p]]) == s0[order[p]]
      invariant forall k :: 0 <= k < |items| && k !in order ==> Snap(items[k]) == s0[k]
    {
      count := Rule6Iteration(items, s0, order, half, percentOff, count, i);
    }
    Rule6WithByPositions(s0, order, percentOff, half, View(items));
  }

  // ---------------------------------------------------------------------------
  // DiscountRule4: for each SKU with an eligible item, the items of that SKU
  // are paired in cart order; the second of each pair costs the special price
  // and both are marked discounted
  // ---------------------------------------------------------------------------

  /** The number of lines with the given SKU among the first n. */
  function CountSku(s: seq<Line>, sku: string, n: nat): nat
    requires n <= |s|
  {
    if n == 0 then 0
    else CountSku(s, sku, n - 1) + (if s[n - 1].SKU == sku then 1 else 0)
  }

  /** A line of the SKU at position a counts before every later prefix end. */
  lemma {:induction false} CountSkuStrict(s: seq<Line>, sku: string, a: nat, b: nat)
    requires a < b <= |s| && s[a].SKU == sku
    ensures CountSku(s, sku, a) < CountSku(s, sku, b)
    decreases b
  {
    if a < b - 1 {
      CountSkuStrict(s, sku, a, b - 1);
    }
  }

  /** The SKUs yielded by the query over the first n lines:
      `Where(p => p.Tags.Contains(tag) && !p.IsDiscounted).Select(p => p.SKU).Distinct()`. */
  ghost function SkusUpTo(s: seq<Line>, tag: string, n: nat): set<string>
    requires n <= |s|
  {
    if n == 0 then {}
    else SkusUpTo(s, tag, n - 1) + (if Eligible(s[n - 1], tag) then {s[n - 1].SKU} else {})
  }

  lemma {:induction false} SkusUpToActive(s: seq<Line>, tag: string, n: nat, sku: string)
    requires n <= |s|
    ensures sku in SkusUpTo(s, tag, n) <==> exists k :: 0 <= k < n && s[k].SKU == sku && Eligible(s[k], tag)
  {
    if n > 0 {
      SkusUpToActive(s, tag, n - 1, sku);
    }
  }

  /** Some eligible line carries this SKU. */
  predicate ActiveSku(s: seq<Line>, tag: string, sku: string)
  {
    exists k :: 0 <= k < |s| && s[k].SKU == sku && Eligible(s[k], tag)
  }

  /** n is odd, by counting down. */
  function Odd(n: nat): bool
  {
    if n == 0 then false else !Odd(n - 1)
  }

  /** What DiscountRule4 does to a line of an active SKU: `rank` lines of
      the SKU come before it and `total` lines carry the SKU. An odd rank
      closes a pair and gets the special price; an even rank opens a pair,
      which is marked only when a partner follows. */
  function Rule4Item(l: Line, rank: nat, total: nat, special: real): Line
  {
    if Odd(rank) then l.(Discount := l.Price - special, IsDiscounted := true)
    else if rank + 1 < total then l.(IsDiscounted := true)
    else l
  }

  /** The cart after DiscountRule4.Process. */
  function DiscountRule4Spec(s: seq<Line>, tag: string, special: real): (r: seq<Line>)
    ensures |r| == |s|
  {
    seq(|s|, k requires 0 <= k < |s| =>
      if ActiveSku(s, tag, s[k].SKU)
      then Rule4Item(s[k], CountSku(s, s[k].SKU, k), CountSku(s, s[k].SKU, |s|), special)
      else s[k])
  }

  /** `Odd` is the parity of n. */
  lemma {:induction false} OddParity(n: nat)
    ensures Odd(n) <==> n % 2 == 1
  {
    if n > 0 {
      OddParity(n - 1);
    }
  }

  /** The SKU count grows between a and b exactly when a line of the SKU
      lies in between. */
  lemma {:induction false} CountSkuGrows(s: seq<Line>, sku: string, a: nat, b: nat)
    requires a <= b <= |s|
    ensures CountSku(s, sku, a) <= CountSku(s, sku, b)
    ensures CountSku(s, sku, a) < CountSku(s, sku, b) <==> exists j :: a <= j < b && s[j].SKU == sku
    decreases b
  {
    if a < b {
      CountSkuGrows(s, sku, a, b - 1);
    }
  }

  /** A later line carries the SKU of line k. */
  predicate SkuFollows(s: seq<Line>, k: nat)
    requires k < |s|
  {
    exists j :: k < j < |s| && s[j].SKU == s[k].SKU
  }

  /** What DiscountRule4 does to the line at position k. A line whose SKU has
      no tagged, undiscounted line is left alone. Otherwise the lines of the
      SKU pair up in cart order: a line with an odd number of same-SKU lines
      before it closes a pair and costs the special price; a line with an
      even number opens a pair, and is only marked, or left alone when no
      same-SKU line follows it. */
  lemma DiscountRule4Effect(s: seq<Line>, tag: string, special: real, k: nat)
    requires k < |s|
    ensures !ActiveSku(s, tag, s[k].SKU) ==> DiscountRule4Spec(s, tag, special)[k] == s[k]
    ensures ActiveSku(s, tag, s[k].SKU) && CountSku(s, s[k].SKU, k) % 2 == 1 ==>
      DiscountRule4Spec(s, tag, special)[k] == s[k].(Discount := s[k].Price - special, IsDiscounted := true)
    ensures ActiveSku(s, tag, s[k].SKU) && CountSku(s, s[k].SKU, k) % 2 == 0 && SkuFollows(s, k) ==>
      DiscountRule4Spec(s, tag, special)[k] == s[k].(IsDiscounted := true)
    ensures ActiveSku(s, tag, s[k].SKU) && CountSku(s, s[k].SKU, k) % 2 == 0 && !SkuFollows(s, k) ==>
      DiscountRule4Spec(s, tag, special)[k] == s[k]
  {
    OddParity(CountSku(s, s[k].SKU, k));
    CountSkuGrows(s, s[k].SKU, k + 1, |s|);
    assert CountSku(s, s[k].SKU, k + 1) == CountSku(s, s[k].SKU, k) + 1;
  }

  /** Only the SKUs matter to CountSku. */
  lemma {:induction false} CountSkuSameSkus(a: seq<Line>, b: seq<Line>, sku: string, n: nat)
    requires n <= |a| == |b| && forall k :: 0 <= k < |a| ==> a[k].SKU == b[k].SKU
    ensures CountSku(a, sku, n) == CountSku(b, sku, n)
  {
    if n > 0 {
      CountSkuSameSkus(a, b, sku, n - 1);
    }
  }

  /** The inner loop's effect: the lines of one SKU are paired in cart order. */
  function PairSkuSpec(s: seq<Line>, sku: string, special: real): (r: seq<Line>)
    ensures |r| == |s|
  {
    seq(|s|, k requires 0 <= k < |s| =>
      if s[k].SKU == sku then Rule4Item(s[k], CountSku(s, sku, k), CountSku(s, sku, |s|), special) else s[k])
  }

  /** Line k once the inner loop has scanned the first j lines. */
  function Paired(s: seq<Line>, sku: string, special: real, j: nat, k: nat): Line
    requires j <= |s| && k < |s|
  {
    if s[k].SKU == sku && k < j
    then Rule4Item(s[k], CountSku(s, sku, k), CountSku(s, sku, j), special)
    else s[k]
  }

  /** Counting one more line of the SKU changes the treatment of no earlier
      line except the one that opened the current pair. */
  lemma PairingUnchanged(s: seq<Line>, sku: string, special: real, j: nat, k: nat, first: nat, pending: bool)
    requires j < |s| && k < j && s[k].SKU == sku && s[j].SKU == sku
    requires pending == Odd(CountSku(s, sku, j))
    requires pending ==> first < j && s[first].SKU == sku && CountSku(s, sku, first) + 1 == CountSku(s, sku, j)
    requires !(pending && k == first)
    ensures Rule4Item(s[k], CountSku(s, sku, k), CountSku(s, sku, j + 1), special)
         == Rule4Item(s[k], CountSku(s, sku, k), CountSku(s, sku, j), special)
  {
    CountSkuStrict(s, sku, k, j);
    if pending {
      if k < first {
        CountSkuStrict(s, sku, k, first);
      } else {
        CountSkuStrict(s, sku, first, k);
      }
    }
  }

  /** One step of the inner loop on values: line j joins the pair under
      construction, or closes it, and no other line but the pair's opener
      changes. */
  lemma PairStep(s: seq<Line>, sku: string, special: real, j: nat, first: nat, pending: bool)
    requires j < |s|
    requires pending == Odd(CountSku(s, sku, j))
    requires pending ==> first < j && s[first].SKU == sku && CountSku(s, sku, first) + 1 == CountSku(s, sku, j)
    ensures Odd(CountSku(s, sku, j + 1)) == if s[j].SKU == sku then !pending else pending
    ensures forall k :: 0 <= k < |s| && k != j && !(pending && k == first && s[j].SKU == sku) ==>
      Paired(s, sku, special, j + 1, k) == Paired(s, sku, special, j, k)
    ensures Paired(s, sku, special, j + 1, j) ==
      if s[j].SKU == sku && pending then s[j].(Discount := s[j].Price - special, IsDiscounted := true) else s[j]
    ensures pending && s[j].SKU == sku ==>
      Paired(s, sku, special, j, first) == s[first] &&
      Paired(s, sku, special, j + 1, first) == s[first].(IsDiscounted := true)
  {
    forall k | 0 <= k < |s| && k != j && !(pending && k == first && s[j].SKU == sku)
      ensures Paired(s, sku, special, j + 1, k) == Paired(s, sku, special, j, k)
    {
      if s[k].SKU == sku && k < j && s[j].SKU == sku {
        PairingUnchanged(s, sku, special, j, k, first, pending);
      }
    }
  }

  /** The cart the outer loop has produced once the lines of the SKUs in
      `done` have been paired. */
  lemma DiscountRule4ByItems(s: seq<Line>, tag: string, special: real, lines: seq<Line>)
    requires |lines| == |s|
    requires forall k :: 0 <= k < |s| ==> lines[k] == Rule4Done(s, special, SkusUpTo(s, tag, |s|), k)
    ensures lines == DiscountRule4Spec(s, tag, special)
  {
    forall k | 0 <= k < |s| ensures lines[k] == DiscountRule4Spec(s, tag, special)[k] {
      SkusUpToActive(s, tag, |s|, s[k].SKU);
    }
  }

  /** Line k once the outer loop has paired the SKUs in `done`. */
  function Rule4Done(s: seq<Line>, special: real, done: set<string>, k: nat): Line
    requires k < |s|
  {
    if s[k].SKU in done
    then Rule4Item(s[k], CountSku(s, s[k].SKU, k), CountSku(s, s[k].SKU, |s|), special)
    else s[k]
  }

  /** Pairing the lines of a further SKU moves the outer loop on by that SKU. */
  lemma PairSkuStep(s: seq<Line>, cur: seq<Line>, special: real, done: set<string>, sku: string, k: nat)
    requires |cur| == |s| && k < |s| && sku !in done
    requires forall i :: 0 <= i < |s| ==> cur[i].SKU == s[i].SKU
    requires cur[k] == Rule4Done(s, special, done, k)
    ensures PairSkuSpec(cur, sku, special)[k] == Rule4Done(s, special, done + {sku}, k)
  {
    if s[k].SKU == sku {
      CountSkuSameSkus(cur, s, sku, k);
      CountSkuSameSkus(cur, s, sku, |s|);
    }
  }

  /** One element of the lazily evaluated `Distinct()` sequence: the n-th
      product, paired when it is eligible and its SKU is new. */
  method Rule4Step(items: seq<Product>, ghost s0: seq<Line>, tag: string, special: real, yielded: set<string>, n: nat)
    returns (yielded': set<string>)
    requires Distinct(items) && n < |items| == |s0|
    requires yielded == SkusUpTo(s0, tag, n)
    requires forall k :: 0 <= k < |items| ==> Snap(items[k]) == Rule4Done(s0, special, yielded, k)
    modifies items
    ensures yielded' == SkusUpTo(s0, tag, n + 1)
    ensures forall k :: 0 <= k < |items| ==> Snap(items[k]) == Rule4Done(s0, special, yielded', k)
  {
    yielded' := yielded;
    var p := items[n];
    assert p.SKU !in yielded ==> Snap(p) == s0[n];
    if Eligible(s0[n], tag) && s0[n].SKU in yielded {
      assert yielded + {s0[n].SKU} == yielded;
    }
    if tag in p.Tags && !p.IsDiscounted && p.SKU !in yielded {
      var sku := p.SKU;
      ghost var cur := View(items);
      PairSku(items, sku, special);
      forall k | 0 <= k < |items| ensures Snap(items[k]) == Rule4Done(s0, special, yielded + {sku}, k) {
        PairSkuStep(s0, cur, special, yielded, sku, k);
      }
      yielded' := yielded + {sku};
    }
  }

  /** DiscountRule4.Process (JulianDemo/CartContext.cs). The outer query is
      lazy: each line is examined when the enumeration reaches it, and
      `Distinct` keeps the set of SKUs already yielded. The inner loop is
      PairSku. */
  method ProcessDiscountRule4(cart: CartContext, tag: string, special: real)
    requires cart.Valid()
    modifies cart.PurchasedItems
    ensures View(cart.PurchasedItems) == DiscountRule4Spec(old(View(cart.PurchasedItems)), tag, special)
  {
    var items := cart.PurchasedItems;
    ghost var s0 := View(items);
    var yielded: set<string> := {};
    var n := 0;
    while n < |items|
      invariant n <= |items|
      invariant yielded == SkusUpTo(s0, tag, n)
      invariant forall k :: 0 <= k < |items| ==> Snap(items[k]) == Rule4Done(s0, special, yielded, k)
    {
      yielded := Rule4Step(items, s0, tag, special, yielded, n);
      n := n + 1;
    }
    DiscountRule4ByItems(s0, tag, special, View(items));
  }

  /** One iteration of the foreach in DiscountRule4.Process's inner loop:
      the j-th product joins the buffer when its SKU matches, and a full
      buffer of two is paired and emptied. */
  method PairSkuIteration(items: seq<Product>, sku: string, special: real, ghost s0: seq<Line>,
                          matched: seq<Product>, ghost first: nat, j: nat)
    returns (matched': seq<Product>, ghost first': nat)
    requires Distinct(items) && j < |items| == |s0|
    requires |matched| <= 1 && (|matched| == 1) == Odd(CountSku(s0, sku, j))
    requires |matched| == 1 ==>
      first < j && matched[0] == items[first] && s0[first].SKU == sku &&
      CountSku(s0, sku, first) + 1 == CountSku(s0, sku, j)
    requires forall k :: 0 <= k < |items| ==> Snap(items[k]) == Paired(s0, sku, special, j, k)
    modifies items
    ensures |matched'| <= 1 && (|matched'| == 1) == Odd(CountSku(s0, sku, j + 1))
    ensures |matched'| == 1 ==>
      first' < j + 1 && matched'[0] == items[first'] && s0[first'].SKU == sku &&
      CountSku(s0, sku, first') + 1 == CountSku(s0, sku, j + 1)
    ensures forall k :: 0 <= k < |items| ==> Snap(items[k]) == Paired(s0, sku, special, j + 1, k)
  {
    matched', first' := matched, first;
    var q := items[j];
    ghost var pending := |matched| == 1;
    ghost var before := first;
    PairStep(s0, sku, special, j, first, pending);
    label Start:
    if q.SKU == sku {
      matched' := matched + [q];
      if |matched'| == 2 {
        matched'[|matched'| - 1].Discount := matched'[|matched'| - 1].Price - special;
        matched'[0].IsDiscounted := true;
        matched'[1].IsDiscounted := true;
        matched' := [];
      } else {
        first' := j;
      }
    }
    assert Snap(items[j]) == Paired(s0, sku, special, j + 1, j);
    assert pending && s0[j].SKU == sku ==> Snap(items[before]) == Paired(s0, sku, special, j + 1, before);
    forall k | 0 <= k < |items| ensures Snap(items[k]) == Paired(s0, sku, special, j + 1, k) {
      if k != j && !(pending && k == before && s0[j].SKU == sku) {
        assert items[k] != items[j];
        if pending && s0[j].SKU == sku {
          assert items[k] != items[before];
        }
        assert Snap(items[k]) == old@Start(Snap(items[k]));
      }
    }
  }

  /** The inner loop of DiscountRule4.Process: every line of the SKU joins
      `matched`; when it holds two, the second gets the special price and
      both are marked discounted (`matched.ForEach` over its two products is
      written out as two updates). */
  method PairSku(items: seq<Product>, sku: string, special: real)
    requires Distinct(items)
    modifies items
    ensures View(items) == PairSkuSpec(old(View(items)), sku, special)
  {
    ghost var s0 := View(items);
    var matched: seq<Product> := [];
    ghost var first: nat := 0;
    var j := 0;
    while j < |items|
      invariant j <= |items|
      invariant |matched| <= 1 && (|matched| == 1) == Odd(CountSku(s0, sku, j))
      invariant |matched| == 1 ==>
        first < j && matched[0] == items[first] && s0[first].SKU == sku &&
        CountSku(s0, sku, first) + 1 == CountSku(s0, sku, j)
      invariant forall k :: 0 <= k < |items| ==> Snap(items[k]) == Paired(s0, sku, special, j, k)
    {
      matched, first := PairSkuIteration(items, sku, special, s0, matched, first, j);
      j := j + 1;
    }
    forall k | 0 <= k < |items| ensures Paired(s0, sku, special, |items|, k) == PairSkuSpec(s0, sku, special)[k] {
    }
  }

  // ---------------------------------------------------------------------------
  // ComboDiscount: drinks and foods of the price tiers 39, 49 and 59 are
  // drained from per-tier queues in pairs; the drink then costs the combo
  // price and the food nothing
  // ---------------------------------------------------------------------------

  const DrinkKind := "飲料"
  const FoodKind := "鮮食"

  /** `$"{TargetTag}/{price}/{kind}"`, with the price as interpolation
      writes it. */
  function TierTag(target: string, price: string, kind: string): string
  {
    target + "/" + price + "/" + kind
  }

  /** The six tier tags, in the order the loops use their queues. */
  function ComboTags(target: string): seq<string>
  {
    [TierTag(target, "39", DrinkKind), TierTag(target, "39", FoodKind),
     TierTag(target, "49", DrinkKind), TierTag(target, "49", FoodKind),
     TierTag(target, "59", DrinkKind), TierTag(target, "59", FoodKind)]
  }

  /** One drink and one food dequeued together, by cart position, with the
      combo price of the loop that paired them. */
  datatype Pairing = Pairing(drink: nat, food: nat, comboPrice: int)

  /** The pairs a run made and whether it ended without a `Dequeue` on an
      empty queue. */
  datatype Plan = Plan(pairs: seq<Pairing>, ok: bool)

  /** The pairs, completion flag and leftover food queues of a 49 or 59 loop. */
  datatype Drain = Drain(pairs: seq<Pairing>, ok: bool, food49: seq<nat>, food59: seq<nat>)

  /** The 39 loop. Its guard `drinkDict.Count != 0` always holds (the
      dictionary has three keys), so it runs while 39-food remains and fails
      once the 39-drinks run out first. */
  function Drain39(drinks: seq<nat>, food: seq<nat>): Plan
    decreases |food|
  {
    if |food| == 0 then Plan([], true)
    else if |drinks| == 0 then Plan([], false)
    else
      var rest := Drain39(drinks[1..], food[1..]);
      Plan([Pairing(drinks[0], food[0], 39)] + rest.pairs, rest.ok)
  }

  /** The 49 loop (prefer59) and the 59 loop (!prefer59). The guard
      `drinks.Count != 0 && food49.Count != 0 || food59.Count != 0` groups as
      `(… && …) || …`, so the loop also runs with no drink left while 59-food
      remains, and then the drink `Dequeue` fails. The food comes from the
      preferred queue while it is not empty. */
  function DrainTier(price: int, drinks: seq<nat>, food49: seq<nat>, food59: seq<nat>, prefer59: bool): Drain
    decreases |drinks|
  {
    if !((|drinks| > 0 && |food49| > 0) || |food59| > 0) then Drain([], true, food49, food59)
    else if |drinks| == 0 then Drain([], false, food49, food59)
    else if |food59| > 0 && (prefer59 || |food49| == 0) then
      var rest := DrainTier(price, drinks[1..], food49, food59[1..], prefer59);
      rest.(pairs := [Pairing(drinks[0], food59[0], price)] + rest.pairs)
    else
      var rest := DrainTier(price, drinks[1..], food49[1..], food59, prefer59);
      rest.(pairs := [Pairing(drinks[0], food49[0], price)] + rest.pairs)
  }

  /** The pairs the three loops make from the six queues, and whether the
      run completes: a failing loop ends it. */
  function DrainAll(d39: seq<nat>, f39: seq<nat>, d49: seq<nat>, f49: seq<nat>, d59: seq<nat>, f59: seq<nat>): Plan
  {
    var p39 := Drain39(d39, f39);
    if !p39.ok then p39
    else
      var p49 := DrainTier(49, d49, f49, f59, true);
      if !p49.ok then Plan(p39.pairs + p49.pairs, false)
      else
        var p59 := DrainTier(59, d59, p49.food49, p49.food59, false);
        Plan(p39.pairs + p49.pairs + p59.pairs, p59.ok)
  }

  /** What ComboDiscount.Process does, as pairs: the six queues are all
      built from the cart as it was on entry. */
  function ComboPlan(s: seq<Line>, target: string): Plan
  {
    var t := ComboTags(target);
    DrainAll(EligibleByNetDesc(s, t[0]), EligibleByNetDesc(s, t[1]), EligibleByNetDesc(s, t[2]),
             EligibleByNetDesc(s, t[3]), EligibleByNetDesc(s, t[4]), EligibleByNetDesc(s, t[5]))
  }

  /** ProcessComboDrink: the drink is flagged and discounted down to the combo price. */
  function ComboDrink(l: Line, comboPrice: int): (r: Line)
    ensures Net(r) == comboPrice as real && r.IsDiscounted
    ensures r.SKU == l.SKU && r.Price == l.Price && r.Tags == l.Tags
  {
    l.(Discount := l.Price - comboPrice as real, IsDiscounted := true)
  }

  /** ProcessComboFood: the food is flagged and discounted by its whole price. */
  function ComboFood(l: Line): (r: Line)
    ensures Net(r) == 0.0 && r.IsDiscounted
    ensures r.SKU == l.SKU && r.Price == l.Price && r.Tags == l.Tags
  {
    l.(Discount := l.Price, IsDiscounted := true)
  }

  /** One loop iteration: the drink, then the food (the same product, should
      it sit in both queues, ends as a food). */
  function ApplyPair(s: seq<Line>, p: Pairing): (r: seq<Line>)
    ensures |r| == |s|
  {
    var s1 := if p.drink < |s| then s[p.drink := ComboDrink(s[p.drink], p.comboPrice)] else s;
    if p.food < |s1| then s1[p.food := ComboFood(s1[p.food])] else s1
  }

  /** The pairs applied in order. */
  function ApplyPairs(s: seq<Line>, ps: seq<Pairing>): (r: seq<Line>)
    ensures |r| == |s|
  {
    if |ps| == 0 then s else ApplyPair(ApplyPairs(s, ps[..|ps| - 1]), ps[|ps| - 1])
  }

  /** The foods of the pairs, in dequeue order. */
  function Foods(ps: seq<Pairing>): (r: seq<nat>)
    ensures |r| == |ps|
  {
    if |ps| == 0 then [] else [ps[0].food] + Foods(ps[1..])
  }

  /** The 39 loop pairs the i-th drink with the i-th food, as many pairs as
      there are foods, and completes exactly when there are no more foods
      than drinks. */
  lemma {:induction false} Drain39Shape(drinks: seq<nat>, food: seq<nat>)
    ensures var r := Drain39(drinks, food);
      (r.ok <==> |food| <= |drinks|) &&
      |r.pairs| == (if |food| <= |drinks| then |food| else |drinks|) &&
      forall i :: 0 <= i < |r.pairs| ==> r.pairs[i] == Pairing(drinks[i], food[i], 39)
    decreases |food|
  {
    if |food| > 0 && |drinks| > 0 {
      Drain39Shape(drinks[1..], food[1..]);
    }
  }

  /** A 49 or 59 loop dequeues drinks in queue order, one per pair, and
      leaves a suffix of each food queue. */
  lemma {:induction false} DrainTierRests(price: int, drinks: seq<nat>, food49: seq<nat>, food59: seq<nat>, prefer59: bool)
    ensures var r := DrainTier(price, drinks, food49, food59, prefer59);
      var a, b := |food49| - |r.food49|, |food59| - |r.food59|;
      0 <= a && 0 <= b && r.food49 == food49[a..] && r.food59 == food59[b..] &&
      |r.pairs| == a + b <= |drinks| &&
      (forall i :: 0 <= i < |r.pairs| ==> r.pairs[i].drink == drinks[i] && r.pairs[i].comboPrice == price)
    decreases |drinks|
  {
    if !((|drinks| > 0 && |food49| > 0) || |food59| > 0) || |drinks| == 0 {
    } else if |food59| > 0 && (prefer59 || |food49| == 0) {
      DrainTierRests(price, drinks[1..], food49, food59[1..], prefer59);
    } else {
      DrainTierRests(price, drinks[1..], food49[1..], food59, prefer59);
    }
  }

  lemma FoodsCons(p: Pairing, ps: seq<Pairing>)
    ensures Foods([p] + ps) == [p.food] + Foods(ps)
  {
    assert ([p] + ps)[1..] == ps;
  }

  /** Taking the front of a queue ahead of what the rest of a loop takes. */
  lemma FoodsTakeFront(p: Pairing, ps: seq<Pairing>, q: seq<nat>, n: nat, tail: seq<nat>)
    requires 0 < n <= |q| && p.food == q[0]
    requires Foods(ps) == q[1..][..n - 1] + tail
    ensures Foods([p] + ps) == q[..n] + tail
  {
    FoodsCons(p, ps);
    assert q[..n] == [q[0]] + q[1..][..n - 1];
  }

  /** The 49 loop takes its foods from the front of the 59-food queue until
      that is empty, then from the front of the 49-food queue. */
  lemma {:induction false} DrainTierFoods59(price: int, drinks: seq<nat>, food49: seq<nat>, food59: seq<nat>)
    ensures var r := DrainTier(price, drinks, food49, food59, true);
      var a, b := |food49| - |r.food49|, |food59| - |r.food59|;
      0 <= a <= |food49| && 0 <= b <= |food59| &&
      Foods(r.pairs) == food59[..b] + food49[..a] && (a > 0 ==> b == |food59|)
    decreases |drinks|
  {
    var r := DrainTier(price, drinks, food49, food59, true);
    DrainTierRests(price, drinks, food49, food59, true);
    var a, b := |food49| - |r.food49|, |food59| - |r.food59|;
    if !((|drinks| > 0 && |food49| > 0) || |food59| > 0) || |drinks| == 0 {
    } else if |food59| > 0 {
      var rest := DrainTier(price, drinks[1..], food49, food59[1..], true);
      DrainTierFoods59(price, drinks[1..], food49, food59[1..]);
      assert r.pairs == [Pairing(drinks[0], food59[0], price)] + rest.pairs;
      FoodsTakeFront(Pairing(drinks[0], food59[0], price), rest.pairs, food59, b, food49[..a]);
    } else {
      var rest := DrainTier(price, drinks[1..], food49[1..], food59, true);
      DrainTierFoods59(price, drinks[1..], food49[1..], food59);
      assert r.pairs == [Pairing(drinks[0], food49[0], price)] + rest.pairs;
      assert food59[..0] + food49[1..][..a - 1] == food49[1..][..a - 1] + [];
      FoodsTakeFront(Pairing(drinks[0], food49[0], price), rest.pairs, food49, a, []);
      assert food59[..b] + food49[..a] == food49[..a] + [];
    }
  }

  /** The 59 loop takes its foods from the front of the 49-food queue until
      that is empty, then from the front of the 59-food queue. */
  lemma {:induction false} DrainTierFoods49(price: int, drinks: seq<nat>, food49: seq<nat>, food59: seq<nat>)
    ensures var r := DrainTier(price, drinks, food49, food59, false);
      var a, b := |food49| - |r.food49|, |food59| - |r.food59|;
      0 <= a <= |food49| && 0 <= b <= |food59| &&
      Foods(r.pairs) == food49[..a] + food59[..b] && (b > 0 ==> a == |food49|)
    decreases |drinks|
  {
    var r := DrainTier(price, drinks, food49, food59, false);
    DrainTierRests(price, drinks, food49, food59, false);
    var a, b := |food49| - |r.food49|, |food59| - |r.food59|;
    if !((|drinks| > 0 && |food49| > 0) || |food59| > 0) || |drinks| == 0 {
    } else if |food59| > 0 && |food49| == 0 {
      var rest := DrainTier(price, drinks[1..], food49, food59[1..], false);
      DrainTierFoods49(price, drinks[1..], food49, food59[1..]);
      assert r.pairs == [Pairing(drinks[0], food59[0], price)] + rest.pairs;
      assert food49[..0] + food59[1..][..b - 1] == food59[1..][..b - 1] + [];
      FoodsTakeFront(Pairing(drinks[0], food59[0], price), rest.pairs, food59, b, []);
      assert food49[..a] + food59[..b] == food59[..b] + [];
    } else {
      var rest := DrainTier(price, drinks[1..], food49[1..], food59, false);
      DrainTierFoods49(price, drinks[1..], food49[1..], food59);
      assert r.pairs == [Pairing(drinks[0], food49[0], price)] + rest.pairs;
      FoodsTakeFront(Pairing(drinks[0], food49[0], price), rest.pairs, food49, a, food59[..b]);
    }
  }

  /** When a 49 or 59 loop completes: the 49 loop (prefer59) exactly when
      there are at least as many drinks as 59-foods; the 59 loop exactly when
      no 59-food is queued or the drinks cover all queued food. A completed
      loop leaves no 59-food. */
  lemma {:induction false} DrainTierOk(price: int, drinks: seq<nat>, food49: seq<nat>, food59: seq<nat>, prefer59: bool)
    ensures var r := DrainTier(price, drinks, food49, food59, prefer59);
      (r.ok <==> if prefer59 then |food59| <= |drinks| else |food59| == 0 || |food49| + |food59| <= |drinks|) &&
      (r.ok ==> r.food59 == [])
    decreases |drinks|
  {
    if !((|drinks| > 0 && |food49| > 0) || |food59| > 0) || |drinks| == 0 {
    } else if |food59| > 0 && (prefer59 || |food49| == 0) {
      DrainTierOk(price, drinks[1..], food49, food59[1..], prefer59);
    } else {
      DrainTierOk(price, drinks[1..], food49[1..], food59, prefer59);
    }
  }

  /** Every cart position a run dequeues, drink then food, pair by pair. */
  function Slots(ps: seq<Pairing>): (r: seq<nat>)
    ensures |r| == 2 * |ps|
  {
    if |ps| == 0 then [] else [ps[0].drink, ps[0].food] + Slots(ps[1..])
  }

  lemma {:induction false} SlotsAppend(a: seq<Pairing>, b: seq<Pairing>)
    ensures Slots(a + b) == Slots(a) + Slots(b)
    decreases |a|
  {
    if |a| > 0 {
      assert (a + b)[1..] == a[1..] + b;
      SlotsAppend(a[1..], b);
    } else {
      assert a + b == b;
    }
  }

  /** The 39 loop dequeues a position no more often than its two queues
      hold it. */
  lemma {:induction false} Drain39Slots(drinks: seq<nat>, food: seq<nat>, x: nat)
    ensures multiset(Slots(Drain39(drinks, food).pairs))[x] <= multiset(drinks)[x] + multiset(food)[x]
    decreases |food|
  {
    if |food| > 0 && |drinks| > 0 {
      var rest := Drain39(drinks[1..], food[1..]);
      Drain39Slots(drinks[1..], food[1..], x);
      SlotsCountCons(Pairing(drinks[0], food[0], 39), rest.pairs, x);
      CountFront(drinks, x);
      CountFront(food, x);
    }
  }

  lemma SlotsCons(p: Pairing, ps: seq<Pairing>)
    ensures Slots([p] + ps) == [p.drink, p.food] + Slots(ps)
  {
    assert ([p] + ps)[1..] == ps;
  }

  /** How often the front of a queue and the rest hold x. */
  lemma CountFront(q: seq<nat>, x: nat)
    requires |q| > 0
    ensures multiset(q)[x] == (if q[0] == x then 1 else 0) + multiset(q[1..])[x]
  {
    assert q == [q[0]] + q[1..];
  }

  lemma SlotsCountCons(p: Pairing, ps: seq<Pairing>, x: nat)
    ensures multiset(Slots([p] + ps))[x] ==
      (if p.drink == x then 1 else 0) + (if p.food == x then 1 else 0) + multiset(Slots(ps))[x]
  {
    SlotsCons(p, ps);
    var m := multiset([p.drink, p.food]);
    assert multiset(Slots([p] + ps)) == m + multiset(Slots(ps));
    assert m == multiset{p.drink} + multiset{p.food};
  }

  /** A 49 or 59 loop dequeues a position no more often than its queues hold
      it, counting what it hands back. */
  lemma {:induction false} DrainTierSlots(price: int, drinks: seq<nat>, food49: seq<nat>, food59: seq<nat>, prefer59: bool, x: nat)
    ensures var r := DrainTier(price, drinks, food49, food59, prefer59);
      multiset(Slots(r.pairs))[x] + multiset(r.food49)[x] + multiset(r.food59)[x]
        <= multiset(drinks)[x] + multiset(food49)[x] + multiset(food59)[x]
    decreases |drinks|
  {
    if !((|drinks| > 0 && |food49| > 0) || |food59| > 0) || |drinks| == 0 {
    } else if |food59| > 0 && (prefer59 || |food49| == 0) {
      var rest := DrainTier(price, drinks[1..], food49, food59[1..], prefer59);
      var p := Pairing(drinks[0], food59[0], price);
      assert DrainTier(price, drinks, food49, food59, prefer59) == rest.(pairs := [p] + rest.pairs);
      DrainTierSlots(price, drinks[1..], food49, food59[1..], prefer59, x);
      SlotsCountCons(p, rest.pairs, x);
      CountFront(drinks, x);
      CountFront(food59, x);
    } else {
      var rest := DrainTier(price, drinks[1..], food49[1..], food59, prefer59);
      var p := Pairing(drinks[0], food49[0], price);
      assert DrainTier(price, drinks, food49, food59, prefer59) == rest.(pairs := [p] + rest.pairs);
      DrainTierSlots(price, drinks[1..], food49[1..], food59, prefer59, x);
      SlotsCountCons(p, rest.pairs, x);
      CountFront(drinks, x);
      CountFront(food49, x);
    }
  }

  /** No product carries two of the six tier tags. */
  ghost predicate OneComboTier(s: seq<Line>, target: string)
  {
    forall k, a, b :: 0 <= k < |s| && 0 <= a < b < |ComboTags(target)| ==>
      !(ComboTags(target)[a] in s[k].Tags && ComboTags(target)[b] in s[k].Tags)
  }

  /** A queue without repeats holds each position at most once. */
  lemma {:induction false} DistinctCount(q: seq<nat>, x: nat)
    requires forall p, r :: 0 <= p < r < |q| ==> q[p] != q[r]
    ensures multiset(q)[x] == if x in q then 1 else 0
  {
    if |q| > 0 {
      var front := q[..|q| - 1];
      assert q == front + [q[|q| - 1]];
      DistinctCount(front, x);
      if x == q[|q| - 1] {
        assert x !in front by {
          forall p | 0 <= p < |front| ensures front[p] != x {
            assert front[p] == q[p];
          }
        }
      }
    }
  }

  /** The queue of one tag holds each eligible position once and nothing else. */
  lemma QueueCount(s: seq<Line>, tag: string, x: nat)
    ensures multiset(EligibleByNetDesc(s, tag))[x] == if x < |s| && Eligible(s[x], tag) then 1 else 0
  {
    EligibleByNetDescRanked(s, tag);
    EligibleByNetDescDistinct(s, tag);
    DistinctCount(EligibleByNetDesc(s, tag), x);
  }

  /** A whole run dequeues a position no more often than the six queues
      hold it. */
  lemma DrainAllSlots(d39: seq<nat>, f39: seq<nat>, d49: seq<nat>, f49: seq<nat>, d59: seq<nat>, f59: seq<nat>, x: nat)
    ensures multiset(Slots(DrainAll(d39, f39, d49, f49, d59, f59).pairs))[x] <=
      multiset(d39)[x] + multiset(f39)[x] + multiset(d49)[x] + multiset(f49)[x] + multiset(d59)[x] + multiset(f59)[x]
  {
    var p39 := Drain39(d39, f39);
    Drain39Slots(d39, f39, x);
    if p39.ok {
      var p49 := DrainTier(49, d49, f49, f59, true);
      DrainTierSlots(49, d49, f49, f59, true, x);
      SlotsAppend(p39.pairs, p49.pairs);
      if p49.ok {
        var p59 := DrainTier(59, d59, p49.food49, p49.food59, false);
        DrainTierSlots(59, d59, p49.food49, p49.food59, false, x);
        SlotsAppend(p39.pairs + p49.pairs, p59.pairs);
      }
    }
  }

  /** Under OneComboTier the six queues together hold each position at most once. */
  lemma ComboQueuesDisjoint(s: seq<Line>, target: string, x: nat)
    requires OneComboTier(s, target)
    ensures var t := ComboTags(target);
      multiset(EligibleByNetDesc(s, t[0]))[x] + multiset(EligibleByNetDesc(s, t[1]))[x] +
      multiset(EligibleByNetDesc(s, t[2]))[x] + multiset(EligibleByNetDesc(s, t[3]))[x] +
      multiset(EligibleByNetDesc(s, t[4]))[x] + multiset(EligibleByNetDesc(s, t[5]))[x] <= 1
  {
    var t := ComboTags(target);
    QueueCount(s, t[0], x);
    QueueCount(s, t[1], x);
    QueueCount(s, t[2], x);
    QueueCount(s, t[3], x);
    QueueCount(s, t[4], x);
    QueueCount(s, t[5], x);
  }


  /** Both positions of every pair are among the slots. */
  lemma {:induction false} SlotsHas(ps: seq<Pairing>, i: nat)
    requires i < |ps|
    ensures ps[i].drink in Slots(ps) && ps[i].food in Slots(ps)
    decreases |ps|
  {
    if i > 0 {
      SlotsHas(ps[1..], i - 1);
    }
  }

  lemma SlotsSnoc(init: seq<Pairing>, last: Pairing, x: nat)
    ensures multiset(Slots(init + [last]))[x] ==
      multiset(Slots(init))[x] + (if last.drink == x then 1 else 0) + (if last.food == x then 1 else 0)
    ensures x in Slots(init) ==> x in Slots(init + [last])
  {
    SlotsAppend(init, [last]);
    assert Slots([last]) == [last.drink, last.food];
    assert Slots(init + [last]) == Slots(init) + [last.drink] + [last.food];
  }

  /** One pair with two different positions changes exactly those two lines. */
  lemma ApplyPairAt(s: seq<Line>, p: Pairing)
    requires p.drink < |s| && p.food < |s| && p.drink != p.food
    ensures ApplyPair(s, p)[p.drink] == ComboDrink(s[p.drink], p.comboPrice)
    ensures ApplyPair(s, p)[p.food] == ComboFood(s[p.food])
    ensures forall k :: 0 <= k < |s| && k != p.drink && k != p.food ==> ApplyPair(s, p)[k] == s[k]
  {
  }

  /** One more pair on top of the pairs already applied. */
  lemma ApplyPairsEffectStep(s: seq<Line>, init: seq<Pairing>, last: Pairing, r0: seq<Line>)
    requires |r0| == |s| && last.drink < |s| && last.food < |s| && last.drink != last.food
    requires last.drink !in Slots(init) && last.food !in Slots(init)
    requires forall i :: 0 <= i < |init| ==>
      init[i].drink < |s| && init[i].food < |s| &&
      r0[init[i].drink] == ComboDrink(s[init[i].drink], init[i].comboPrice) &&
      r0[init[i].food] == ComboFood(s[init[i].food])
    requires forall k :: 0 <= k < |s| && k !in Slots(init) ==> r0[k] == s[k]
    ensures var ps, r := init + [last], ApplyPair(r0, last);
      forall i :: 0 <= i < |ps| ==>
        r[ps[i].drink] == ComboDrink(s[ps[i].drink], ps[i].comboPrice) &&
        r[ps[i].food] == ComboFood(s[ps[i].food])
    ensures var r := ApplyPair(r0, last);
      forall k :: 0 <= k < |s| && k !in Slots(init + [last]) ==> r[k] == s[k]
  {
    var ps, r := init + [last], ApplyPair(r0, last);
    ApplyPairAt(r0, last);
    SlotsAppend(init, [last]);
    assert Slots([last]) == [last.drink, last.food];
    forall i | 0 <= i < |ps|
      ensures r[ps[i].drink] == ComboDrink(s[ps[i].drink], ps[i].comboPrice)
      ensures r[ps[i].food] == ComboFood(s[ps[i].food])
    {
      if i < |init| {
        SlotsHas(init, i);
        assert ps[i] == init[i];
      }
    }
  }


  /** Applying pairs that dequeue no position twice: each dequeued drink is
      discounted to its pair's combo price, each dequeued food to nothing,
      and every other line stays as it was. */
  lemma {:induction false} ApplyPairsEffect(s: seq<Line>, ps: seq<Pairing>)
    requires forall i :: 0 <= i < |ps| ==> ps[i].drink < |s| && ps[i].food < |s|
    requires forall x :: multiset(Slots(ps))[x] <= 1
    ensures forall i :: 0 <= i < |ps| ==>
      ApplyPairs(s, ps)[ps[i].drink] == ComboDrink(s[ps[i].drink], ps[i].comboPrice) &&
      ApplyPairs(s, ps)[ps[i].food] == ComboFood(s[ps[i].food])
    ensures forall k :: 0 <= k < |s| && k !in Slots(ps) ==> ApplyPairs(s, ps)[k] == s[k]
    decreases |ps|
  {
    if |ps| > 0 {
      var init, last := ps[..|ps| - 1], ps[|ps| - 1];
      assert ps == init + [last];
      forall x ensures multiset(Slots(init))[x] <= 1 {
        SlotsSnoc(init, last, x);
      }
      ApplyPairsEffect(s, init);
      SlotsSnoc(init, last, last.drink);
      SlotsSnoc(init, last, last.food);
      assert ApplyPairs(s, ps) == ApplyPair(ApplyPairs(s, init), last);
      ApplyPairsEffectStep(s, init, last, ApplyPairs(s, init));
    }
  }

  /** ComboDiscount.Process completes exactly when there are no more
      eligible 39-foods than 39-drinks and no more eligible 59-foods than
      49-drinks; otherwise a drink `Dequeue` on an empty queue throws. The
      59 loop never throws: the 49 loop has drained the 59-food. */
  lemma ComboDiscountOk(s: seq<Line>, target: string)
    ensures ComboPlan(s, target).ok <==>
      |EligibleSet(s, TierTag(target, "39", FoodKind))| <= |EligibleSet(s, TierTag(target, "39", DrinkKind))| &&
      |EligibleSet(s, TierTag(target, "59", FoodKind))| <= |EligibleSet(s, TierTag(target, "49", DrinkKind))|
  {
    var t := ComboTags(target);
    var d39, f39 := EligibleByNetDesc(s, t[0]), EligibleByNetDesc(s, t[1]);
    var d49, f49 := EligibleByNetDesc(s, t[2]), EligibleByNetDesc(s, t[3]);
    var d59, f59 := EligibleByNetDesc(s, t[4]), EligibleByNetDesc(s, t[5]);
    EligibleCount(s, t[0]);
    EligibleCount(s, t[1]);
    EligibleCount(s, t[2]);
    EligibleCount(s, t[5]);
    Drain39Shape(d39, f39);
    var p49 := DrainTier(49, d49, f49, f59, true);
    DrainTierOk(49, d49, f49, f59, true);
    if p49.ok {
      DrainTierOk(59, d59, p49.food49, p49.food59, false);
    }
  }

  /** When no product carries two tier tags, a run dequeues each cart
      position at most once, and only positions of the cart. */
  lemma ComboSlotsOnce(s: seq<Line>, target: string, x: nat)
    requires OneComboTier(s, target)
    ensures multiset(Slots(ComboPlan(s, target).pairs))[x] <= 1
    ensures multiset(Slots(ComboPlan(s, target).pairs))[x] > 0 ==> x < |s|
  {
    var t := ComboTags(target);
    DrainAllSlots(EligibleByNetDesc(s, t[0]), EligibleByNetDesc(s, t[1]), EligibleByNetDesc(s, t[2]),
                  EligibleByNetDesc(s, t[3]), EligibleByNetDesc(s, t[4]), EligibleByNetDesc(s, t[5]), x);
    ComboQueuesDisjoint(s, target, x);
    QueueCount(s, t[0], x);
    QueueCount(s, t[1], x);
    QueueCount(s, t[2], x);
    QueueCount(s, t[3], x);
    QueueCount(s, t[4], x);
    QueueCount(s, t[5], x);
  }

  /** When no product carries two tier tags, ComboDiscount dequeues no
      product twice: every dequeued drink ends at its combo price and every
      dequeued food at zero, both flagged, and no other product changes. */
  lemma ComboDiscountEffect(s: seq<Line>, target: string)
    requires OneComboTier(s, target)
    ensures var plan := ComboPlan(s, target);
      forall i :: 0 <= i < |plan.pairs| ==>
        plan.pairs[i].drink < |s| && plan.pairs[i].food < |s| &&
        Net(ApplyPairs(s, plan.pairs)[plan.pairs[i].drink]) == plan.pairs[i].comboPrice as real &&
        ApplyPairs(s, plan.pairs)[plan.pairs[i].drink].IsDiscounted &&
        Net(ApplyPairs(s, plan.pairs)[plan.pairs[i].food]) == 0.0 &&
        ApplyPairs(s, plan.pairs)[plan.pairs[i].food].IsDiscounted
    ensures var plan := ComboPlan(s, target);
      forall k :: 0 <= k < |s| && k !in Slots(plan.pairs) ==> ApplyPairs(s, plan.pairs)[k] == s[k]
  {
    var ps := ComboPlan(s, target).pairs;
    forall x ensures multiset(Slots(ps))[x] <= 1 {
      ComboSlotsOnce(s, target, x);
    }
    forall i | 0 <= i < |ps| ensures ps[i].drink < |s| && ps[i].food < |s| {
      SlotsHas(ps, i);
      ComboSlotsOnce(s, target, ps[i].drink);
      ComboSlotsOnce(s, target, ps[i].food);
    }
    ApplyPairsEffect(s, ps);
  }

  /** ProcessComboItem: flags the product (its Note is not modelled). */
  method ProcessComboItem(food: Product, comboPrice: int)
    modifies food
    ensures Snap(food) == old(Snap(food)).(IsDiscounted := true)
  {
    food.IsDiscounted := true;
  }

  /** ProcessComboFood: the food becomes free. */
  method ProcessComboFood(food: Product, comboPrice: int)
    modifies food
    ensures Snap(food) == ComboFood(old(Snap(food)))
  {
    ProcessComboItem(food, comboPrice);
    food.Discount := food.Price;
  }

  /** ProcessComboDrink: the drink costs the combo price. */
  method ProcessComboDrink(drink: Product, comboPrice: int)
    modifies drink
    ensures Snap(drink) == ComboDrink(old(Snap(drink)), comboPrice)
  {
    ProcessComboItem(drink, comboPrice);
    drink.Discount := drink.Price - comboPrice as real;
  }

  /** The work of one loop iteration on the cart: the dequeued drink, then
      the dequeued food. */
  method ProcessComboPair(items: seq<Product>, p: Pairing)
    requires Distinct(items) && p.drink < |items| && p.food < |items|
    modifies items
    ensures View(items) == ApplyPair(old(View(items)), p)
  {
    ghost var s := View(items);
    ProcessComboDrink(items[p.drink], p.comboPrice);
    ghost var s1 := View(items);
    forall k | 0 <= k < |items| && k != p.drink ensures s1[k] == s[k] {
      assert items[k] != items[p.drink];
    }
    assert s1 == s[p.drink := ComboDrink(s[p.drink], p.comboPrice)];
    ProcessComboFood(items[p.food], p.comboPrice);
    forall k | 0 <= k < |items| && k != p.food ensures View(items)[k] == s1[k] {
      assert items[k] != items[p.food];
    }
    assert View(items) == s1[p.food := ComboFood(s1[p.food])];
  }

  /** Applying two runs of pairs one after the other. */
  lemma {:induction false} ApplyPairsAppend(s: seq<Line>, a: seq<Pairing>, b: seq<Pairing>)
    ensures ApplyPairs(s, a + b) == ApplyPairs(ApplyPairs(s, a), b)
    decreases |b|
  {
    if |b| == 0 {
      assert a + b == a;
    } else {
      assert (a + b)[..|a + b| - 1] == a + b[..|b| - 1];
      ApplyPairsAppend(s, a, b[..|b| - 1]);
    }
  }

  lemma AppendAssoc<T>(a: seq<T>, b: seq<T>, c: seq<T>)
    ensures a + (b + c) == (a + b) + c
  {
  }

  /** One iteration of the 49 or 59 loop once its guard holds and a drink
      is queued: dequeue the drink and process it, then dequeue a food from
      the preferred queue if it is not empty (`food59.Count > 0 ? … : …`)
      and process it. `goal` is the run of the whole loop and `acc` the
      pairs made before this iteration. */
  method ComboTierIteration(items: seq<Product>, price: int, drinks: seq<nat>, food49: seq<nat>, food59: seq<nat>, prefer59: bool,
                            ghost s0: seq<Line>, ghost goal: Drain, ghost acc: seq<Pairing>)
    returns (drinks': seq<nat>, food49': seq<nat>, food59': seq<nat>, ghost acc': seq<Pairing>)
    requires Distinct(items) && Within(drinks, |items|) && Within(food49, |items|) && Within(food59, |items|)
    requires |drinks| > 0 && (|food49| > 0 || |food59| > 0)
    requires View(items) == ApplyPairs(s0, acc)
    requires goal.pairs == acc + DrainTier(price, drinks, food49, food59, prefer59).pairs
    requires goal.ok == DrainTier(price, drinks, food49, food59, prefer59).ok
    requires goal.food49 == DrainTier(price, drinks, food49, food59, prefer59).food49
    requires goal.food59 == DrainTier(price, drinks, food49, food59, prefer59).food59
    modifies items
    ensures Within(drinks', |items|) && Within(food49', |items|) && Within(food59', |items|)
    ensures |drinks'| < |drinks|
    ensures View(items) == ApplyPairs(s0, acc')
    ensures goal.pairs == acc' + DrainTier(price, drinks', food49', food59', prefer59).pairs
    ensures goal.ok == DrainTier(price, drinks', food49', food59', prefer59).ok
    ensures goal.food49 == DrainTier(price, drinks', food49', food59', prefer59).food49
    ensures goal.food59 == DrainTier(price, drinks', food49', food59', prefer59).food59
  {
    var drink := drinks[0];
    drinks' := drinks[1..];
    var food;
    if |food59| > 0 && (prefer59 || |food49| == 0) {
      food := food59[0];
      food49', food59' := food49, food59[1..];
    } else {
      food := food49[0];
      food49', food59' := food49[1..], food59;
    }
    var pair := Pairing(drink, food, price);
    ProcessComboPair(items, pair);
    ghost var rest := DrainTier(price, drinks', food49', food59', prefer59);
    AppendAssoc(acc, [pair], rest.pairs);
    assert (acc + [pair])[..|acc|] == acc;
    acc' := acc + [pair];
  }

  /** The 49 loop (prefer59) or the 59 loop (!prefer59) of
      ComboDiscount.Process: while a drink and a 49-food remain, or a 59-food
      remains, dequeue a drink (throwing when there is none) and a food. */
  method DrainComboTier(items: seq<Product>, price: int, drinks: seq<nat>, food49: seq<nat>, food59: seq<nat>, prefer59: bool)
    returns (ok: bool, rest49: seq<nat>, rest59: seq<nat>)
    requires Distinct(items) && Within(drinks, |items|) && Within(food49, |items|) && Within(food59, |items|)
    modifies items
    ensures View(items) == ApplyPairs(old(View(items)), DrainTier(price, drinks, food49, food59, prefer59).pairs)
    ensures ok == DrainTier(price, drinks, food49, food59, prefer59).ok
    ensures rest49 == DrainTier(price, drinks, food49, food59, prefer59).food49
    ensures rest59 == DrainTier(price, drinks, food49, food59, prefer59).food59
    ensures Within(rest49, |items|) && Within(rest59, |items|)
  {
    ghost var s0 := View(items);
    ghost var goal := DrainTier(price, drinks, food49, food59, prefer59);
    var queue := drinks;
    rest49, rest59 := food49, food59;
    ghost var acc: seq<Pairing> := [];
    while (|queue| != 0 && |rest49| != 0) || |rest59| != 0
      invariant Within(queue, |items|) && Within(rest49, |items|) && Within(rest59, |items|)
      invariant goal.pairs == acc + DrainTier(price, queue, rest49, rest59, prefer59).pairs
      invariant goal.ok == DrainTier(price, queue, rest49, rest59, prefer59).ok
      invariant goal.food49 == DrainTier(price, queue, rest49, rest59, prefer59).food49
      invariant goal.food59 == DrainTier(price, queue, rest49, rest59, prefer59).food59
      invariant View(items) == ApplyPairs(s0, acc)
      decreases |queue|
    {
      if |queue| == 0 {
        assert acc + [] == acc;
        ok := false;  // Queue.Dequeue throws
        return;
      }
      queue, rest49, rest59, acc := ComboTierIteration(items, price, queue, rest49, rest59, prefer59, s0, goal, acc);
    }
    assert acc + [] == acc;
    ok := true;
  }

  /** The dictionary after `dict[prices[j]] = queues[j]` for each j in
      order: a later equal price overwrites an earlier one. */
  function TierDict(prices: seq<int>, queues: seq<seq<nat>>): map<int, seq<nat>>
    requires |queues| == |prices|
  {
    if |prices| == 0 then map[]
    else TierDict(prices[..|prices| - 1], queues[..|prices| - 1])[prices[|prices| - 1] := queues[|prices| - 1]]
  }

  lemma TierDictSnoc(prices: seq<int>, queues: seq<seq<nat>>, i: nat)
    requires |queues| == |prices| && i < |prices|
    ensures TierDict(prices[..i + 1], queues[..i + 1]) == TierDict(prices[..i], queues[..i])[prices[i] := queues[i]]
  {
    assert prices[..i + 1][..i] == prices[..i];
    assert queues[..i + 1][..i] == queues[..i];
  }

  /** Every price has an entry, and it holds the queue of the price's last
      occurrence. */
  lemma {:induction false} TierDictLast(prices: seq<int>, queues: seq<seq<nat>>)
    requires |queues| == |prices|
    ensures forall k :: k in TierDict(prices, queues) <==> k in prices
    ensures forall j :: 0 <= j < |prices| && prices[j] !in prices[j + 1..] ==>
      prices[j] in TierDict(prices, queues) && TierDict(prices, queues)[prices[j]] == queues[j]
  {
    var n := |prices|;
    if n > 0 {
      var front, last := prices[..n - 1], prices[n - 1];
      TierDictLast(front, queues[..n - 1]);
      assert prices == front + [last];
      forall j | 0 <= j < n && prices[j] !in prices[j + 1..]
        ensures prices[j] in TierDict(prices, queues) && TierDict(prices, queues)[prices[j]] == queues[j]
      {
        if j < n - 1 {
          assert prices[j + 1..] == front[j + 1..] + [last];
        }
      }
    }
  }

  /** The queue of eligible lines of each tag, in order. */
  function TierQueues(s: seq<Line>, tags: seq<string>): (r: seq<seq<nat>>)
    ensures |r| == |tags|
  {
    if |tags| == 0 then []
    else TierQueues(s, tags[..|tags| - 1]) + [EligibleByNetDesc(s, tags[|tags| - 1])]
  }

  lemma {:induction false} TierQueuesAt(s: seq<Line>, tags: seq<string>, j: nat)
    requires j < |tags|
    ensures TierQueues(s, tags)[j] == EligibleByNetDesc(s, tags[j])
  {
    if j < |tags| - 1 {
      TierQueuesAt(s, tags[..|tags| - 1], j);
    }
  }

  /** The foreach of ComboDiscount.Process: for each tier price, the queue of
      eligible drinks and the queue of eligible foods, each a Where followed
      by an OrderByDescending on the net price. `drinkTags` and `foodTags`
      hold the interpolated tags of each price. */
  method BuildComboQueues(s: seq<Line>, prices: seq<int>, drinkTags: seq<string>, foodTags: seq<string>)
    returns (drinkDict: map<int, seq<nat>>, foodDict: map<int, seq<nat>>)
    requires |drinkTags| == |prices| && |foodTags| == |prices|
    ensures drinkDict == TierDict(prices, TierQueues(s, drinkTags))
    ensures foodDict == TierDict(prices, TierQueues(s, foodTags))
  {
    drinkDict, foodDict := map[], map[];
    ghost var dq, fq := TierQueues(s, drinkTags), TierQueues(s, foodTags);
    for i := 0 to |prices|
      invariant drinkDict == TierDict(prices[..i], dq[..i])
      invariant foodDict == TierDict(prices[..i], fq[..i])
    {
      TierQueuesAt(s, drinkTags, i);
      TierQueuesAt(s, foodTags, i);
      TierDictSnoc(prices, dq, i);
      TierDictSnoc(prices, fq, i);
      drinkDict := drinkDict[prices[i] := EligibleByNetDesc(s, drinkTags[i])];
      foodDict := foodDict[prices[i] := EligibleByNetDesc(s, foodTags[i])];
    }
    assert prices[..|prices|] == prices && dq[..|prices|] == dq && fq[..|prices|] == fq;
  }

  /** The 39 loop of ComboDiscount.Process: while the drink dictionary is
      not empty (it always holds three tiers) and a 39-food remains, dequeue
      a 39-drink (throwing when there is none) and a 39-food. */
  method DrainCombo39(items: seq<Product>, drinkDict: map<int, seq<nat>>, food: seq<nat>) returns (ok: bool)
    requires Distinct(items) && 39 in drinkDict && Within(drinkDict[39], |items|) && Within(food, |items|)
    modifies items
    ensures View(items) == ApplyPairs(old(View(items)), Drain39(drinkDict[39], food).pairs)
    ensures ok == Drain39(drinkDict[39], food).ok
  {
    ghost var s0 := View(items);
    ghost var goal := Drain39(drinkDict[39], food);
    assert |drinkDict| != 0 by {
      assert 39 in drinkDict.Keys;
    }
    var drinks := drinkDict[39];
    var rest := food;
    ghost var acc: seq<Pairing> := [];
    while |drinkDict| != 0 && |rest| != 0
      invariant Within(drinks, |items|) && Within(rest, |items|)
      invariant goal.pairs == acc + Drain39(drinks, rest).pairs
      invariant goal.ok == Drain39(drinks, rest).ok
      invariant View(items) == ApplyPairs(s0, acc)
      decreases |rest|
    {
      if |drinks| == 0 {
        assert acc + [] == acc;
        ok := false;  // Queue.Dequeue throws
        return;
      }
      var pair := Pairing(drinks[0], rest[0], 39);
      drinks, rest := drinks[1..], rest[1..];
      ProcessComboPair(items, pair);
      AppendAssoc(acc, [pair], Drain39(drinks, rest).pairs);
      assert (acc + [pair])[..|acc|] == acc;
      acc := acc + [pair];
    }
    assert acc + [] == acc;
    ok := true;
  }

  /** With the prices 39, 49 and 59 all different, the dictionaries the
      foreach builds hold, for each price, the queues of its two tags. */
  lemma ComboDictsAt(s: seq<Line>, t: seq<string>)
    requires |t| == 6
    ensures var dd := TierDict([39, 49, 59], TierQueues(s, [t[0], t[2], t[4]]));
      39 in dd && 49 in dd && 59 in dd &&
      dd[39] == EligibleByNetDesc(s, t[0]) && dd[49] == EligibleByNetDesc(s, t[2]) && dd[59] == EligibleByNetDesc(s, t[4])
    ensures var fd := TierDict([39, 49, 59], TierQueues(s, [t[1], t[3], t[5]]));
      39 in fd && 49 in fd && 59 in fd &&
      fd[39] == EligibleByNetDesc(s, t[1]) && fd[49] == EligibleByNetDesc(s, t[3]) && fd[59] == EligibleByNetDesc(s, t[5])
  {
    var prices, drinkTags, foodTags := [39, 49, 59], [t[0], t[2], t[4]], [t[1], t[3], t[5]];
    TierDictLast(prices, TierQueues(s, drinkTags));
    TierDictLast(prices, TierQueues(s, foodTags));
    assert prices[0] !in prices[1..] && prices[1] !in prices[2..] && prices[2] !in prices[3..];
    TierQueuesAt(s, drinkTags, 0);
    TierQueuesAt(s, foodTags, 0);
    TierQueuesAt(s, drinkTags, 1);
    TierQueuesAt(s, foodTags, 1);
    TierQueuesAt(s, drinkTags, 2);
    TierQueuesAt(s, foodTags, 2);
  }

  /** The three while loops of ComboDiscount.Process, one tier after the
      other, on the queues the foreach built. */
  method DrainComboQueues(items: seq<Product>, drinkDict: map<int, seq<nat>>, foodDict: map<int, seq<nat>>) returns (ok: bool)
    requires Distinct(items)
    requires 39 in drinkDict && 49 in drinkDict && 59 in drinkDict
    requires 39 in foodDict && 49 in foodDict && 59 in foodDict
    requires Within(drinkDict[39], |items|) && Within(drinkDict[49], |items|) && Within(drinkDict[59], |items|)
    requires Within(foodDict[39], |items|) && Within(foodDict[49], |items|) && Within(foodDict[59], |items|)
    modifies items
    ensures View(items) == ApplyPairs(old(View(items)), DrainAll(drinkDict[39], foodDict[39], drinkDict[49], foodDict[49], drinkDict[59], foodDict[59]).pairs)
    ensures ok == DrainAll(drinkDict[39], foodDict[39], drinkDict[49], foodDict[49], drinkDict[59], foodDict[59]).ok
  {
    ghost var s0 := View(items);
    ghost var d39, f39, d49, f49, d59, f59 := drinkDict[39], foodDict[39], drinkDict[49], foodDict[49], drinkDict[59], foodDict[59];
    ghost var p39 := Drain39(d39, f39);
    ghost var p49 := DrainTier(49, d49, f49, f59, true);
    ghost var p59 := DrainTier(59, d59, p49.food49, p49.food59, false);
    ghost var plan := DrainAll(d39, f39, d49, f49, d59, f59);
    ok := DrainCombo39(items, drinkDict, foodDict[39]);
    if !ok {
      assert plan == p39;
      assert View(items) == ApplyPairs(s0, plan.pairs);
      return;
    }
    // the 49 loop takes 59-food first
    var rest49, rest59;
    ok, rest49, rest59 := DrainComboTier(items, 49, drinkDict[49], foodDict[49], foodDict[59], true);
    ApplyPairsAppend(s0, p39.pairs, p49.pairs);
    if !ok {
      assert plan.pairs == p39.pairs + p49.pairs;
      assert View(items) == ApplyPairs(s0, plan.pairs);
      return;
    }
    // the 59 loop runs on what the 49 loop left in foodDict, 49-food first
    ok, rest49, rest59 := DrainComboTier(items, 59, drinkDict[59], rest49, rest59, false);
    ApplyPairsAppend(s0, p39.pairs + p49.pairs, p59.pairs);
    assert plan.pairs == p39.pairs + p49.pairs + p59.pairs;
    assert View(items) == ApplyPairs(s0, plan.pairs);
  }

  /** ComboDiscount.Process (JulianDemo/CartContext.cs). The dictionaries map
      each tier price to a queue of cart positions; `ok` is false when a
      `Dequeue` on an empty drink queue throws, and the products processed
      before that keep their new values. */
  method ProcessComboDiscount(cart: CartContext, target: string) returns (ok: bool)
    requires cart.Valid()
    modifies cart.PurchasedItems
    ensures View(cart.PurchasedItems) == ApplyPairs(old(View(cart.PurchasedItems)), ComboPlan(old(View(cart.PurchasedItems)), target).pairs)
    ensures ok == ComboPlan(old(View(cart.PurchasedItems)), target).ok
  {
    var items := cart.PurchasedItems;
    ghost var s0 := View(items);
    var t := ComboTags(target);
    var prices := [39, 49, 59];
    var drinkTags, foodTags := [t[0], t[2], t[4]], [t[1], t[3], t[5]];
    var drinkDict, foodDict := BuildComboQueues(View(items), prices, drinkTags, foodTags);
    ComboDictsAt(s0, t);
    assert ComboPlan(s0, target) == DrainAll(drinkDict[39], foodDict[39], drinkDict[49], foodDict[49], drinkDict[59], foodDict[59]);
    ok := DrainComboQueues(items, drinkDict, foodDict);
  }

  // ---------------------------------------------------------------------------
  // The rules, ComplexDiscountRule and the POS
  // ---------------------------------------------------------------------------

  /** The rules of the JulianDemo namespace, with the constructor arguments
      each keeps. */
  datatype Rule =
    | DiscountRule4(TargetTag: string, BuyTwoGetOneSpecialPrice: real)
    | DiscountRule6(TargetTag: string, PercentOff: int)
    | ComplexDiscountRule(Discount1: Rule, Discount2: Rule)
    | ComboDiscount(TargetTag: string)

  /** RuleBase.TargetTag; ComplexDiscountRule never sets it, so it is null
      and no product's tag set contains it. */
  function Target(r: Rule): Option<string>
  {
    if r.ComplexDiscountRule? then None else Some(r.TargetTag)
  }

  /** `p.Tags.Contains(rule.TargetTag)` */
  predicate HasTarget(l: Line, r: Rule)
  {
    Target(r).Some? && Target(r).value in l.Tags
  }

  /** The cart after a rule, and whether Process returned (false: it threw). */
  datatype Outcome = Outcome(lines: seq<Line>, ok: bool)

  /** The lines carrying both sub-rules' targets and not yet discounted, as
      ComplexDiscountRule lists them before running its first rule. */
  function DoubleTargets(s: seq<Line>, d1: Rule, d2: Rule): (r: seq<nat>)
    ensures forall i :: i in r <==> 0 <= i < |s| && HasTarget(s[i], d1) && HasTarget(s[i], d2) && !s[i].IsDiscounted
  {
    Where(s, Doubled(d1, d2))
  }

  /** `product.IsDiscounted = false` for each listed position. */
  function Unflag(s: seq<Line>, ps: seq<nat>): (r: seq<Line>)
    ensures |r| == |s|
  {
    seq(|s|, i requires 0 <= i < |s| => if i in ps then s[i].(IsDiscounted := false) else s[i])
  }

  /** What RuleBase.Process does to the cart, rule by rule. */
  function RuleSpec(r: Rule, s: seq<Line>): Outcome
    decreases r
  {
    match r
    case DiscountRule4(tag, special) => Outcome(DiscountRule4Spec(s, tag, special), true)
    case DiscountRule6(tag, percentOff) => Outcome(DiscountRule6Spec(s, tag, percentOff), true)
    case ComboDiscount(target) =>
      var plan := ComboPlan(s, target);
      Outcome(ApplyPairs(s, plan.pairs), plan.ok)
    case ComplexDiscountRule(d1, d2) =>
      var both := DoubleTargets(s, d1, d2);
      var o1 := RuleSpec(d1, s);
      if !o1.ok then o1 else RuleSpec(d2, Unflag(o1.lines, both))
  }

  /** The rules run in list order; the first exception ends the checkout. */
  function RunRules(rules: seq<Rule>, s: seq<Line>): Outcome
  {
    if |rules| == 0 then Outcome(s, true)
    else
      var o := RunRules(rules[..|rules| - 1], s);
      if !o.ok then o else RuleSpec(rules[|rules| - 1], o.lines)
  }

  /** Same products in the same places: only Discount and IsDiscounted may differ. */
  ghost predicate SameGoods(a: seq<Line>, b: seq<Line>)
  {
    |a| == |b| &&
    forall i :: 0 <= i < |a| ==> a[i].SKU == b[i].SKU && a[i].Price == b[i].Price && a[i].Tags == b[i].Tags
  }

  lemma {:induction false} ApplyPairsSameGoods(s: seq<Line>, ps: seq<Pairing>)
    ensures SameGoods(s, ApplyPairs(s, ps))
  {
    if |ps| > 0 {
      ApplyPairsSameGoods(s, ps[..|ps| - 1]);
    }
  }

  /** No rule changes what was bought: SKU, price and tags of every line stay. */
  lemma Rule4SameGoods(s: seq<Line>, tag: string, special: real)
    ensures SameGoods(s, DiscountRule4Spec(s, tag, special))
  {
  }

  lemma Rule6SameGoods(s: seq<Line>, tag: string, percentOff: int)
    ensures SameGoods(s, DiscountRule6Spec(s, tag, percentOff))
  {
  }

  lemma SameGoodsTrans(a: seq<Line>, b: seq<Line>, c: seq<Line>)
    requires SameGoods(a, b) && SameGoods(b, c)
    ensures SameGoods(a, c)
  {
  }

  lemma UnflagSameGoods(s: seq<Line>, t: seq<Line>, ps: seq<nat>)
    requires SameGoods(s, t)
    ensures SameGoods(s, Unflag(t, ps))
  {
  }

  lemma {:induction false} RuleSameGoods(r: Rule, s: seq<Line>)
    ensures SameGoods(s, RuleSpec(r, s).lines)
    decreases r
  {
    match r
    case DiscountRule4(tag, special) =>
      Rule4SameGoods(s, tag, special);
    case DiscountRule6(tag, percentOff) =>
      Rule6SameGoods(s, tag, percentOff);
    case ComboDiscount(target) =>
      ApplyPairsSameGoods(s, ComboPlan(s, target).pairs);
    case ComplexDiscountRule(d1, d2) =>
      ComplexUnfold(d1, d2, s);
      var o1 := RuleSpec(d1, s);
      RuleSameGoods(d1, s);
      if o1.ok {
        var u := Unflag(o1.lines, DoubleTargets(s, d1, d2));
        UnflagSameGoods(s, o1.lines, DoubleTargets(s, d1, d2));
        RuleSameGoods(d2, u);
        SameGoodsTrans(s, u, RuleSpec(d2, u).lines);
      }
  }


  lemma {:induction false} RunRulesSameGoods(rules: seq<Rule>, s: seq<Line>)
    ensures SameGoods(s, RunRules(rules, s).lines)
  {
    if |rules| > 0 {
      RunRulesSameGoods(rules[..|rules| - 1], s);
      var o := RunRules(rules[..|rules| - 1], s);
      if o.ok {
        RuleSameGoods(rules[|rules| - 1], o.lines);
      }
    }
  }

  lemma {:induction false} SumPricesSameGoods(a: seq<Line>, b: seq<Line>)
    requires SameGoods(a, b)
    ensures SumPrices(a) == SumPrices(b)
  {
    if |a| > 0 {
      SumPricesSameGoods(a[..|a| - 1], b[..|b| - 1]);
    }
  }

  /** ComplexDiscountRule gives its second rule a chance at every line that
      carried both targets and no discount on entry, even when the first
      rule discounted it. */
  lemma ComplexSecondChance(d1: Rule, d2: Rule, s: seq<Line>, i: nat)
    requires RuleSpec(d1, s).ok && i < |s| && HasTarget(s[i], d1) && HasTarget(s[i], d2) && !s[i].IsDiscounted
    ensures var input := Unflag(RuleSpec(d1, s).lines, DoubleTargets(s, d1, d2));
      i < |input| && Eligible(input[i], Target(d2).value) &&
      input[i] == RuleSpec(d1, s).lines[i].(IsDiscounted := false)
  {
    RuleSameGoods(d1, s);
  }

  /** A line that carried a discount flag on entry, or does not carry both
      targets, reaches the second rule exactly as the first rule left it. */
  lemma ComplexOthersKept(d1: Rule, d2: Rule, s: seq<Line>, i: nat)
    requires RuleSpec(d1, s).ok && i < |s| && !(HasTarget(s[i], d1) && HasTarget(s[i], d2) && !s[i].IsDiscounted)
    ensures var input := Unflag(RuleSpec(d1, s).lines, DoubleTargets(s, d1, d2));
      i < |input| && input[i] == RuleSpec(d1, s).lines[i]
  {
    RuleSameGoods(d1, s);
  }

  /** The foreach of ComplexDiscountRule.Process: `IsDiscounted = false` on
      each listed product. */
  method UnflagProducts(items: seq<Product>, both: seq<nat>)
    requires Distinct(items) && Within(both, |items|)
    modifies items
    ensures View(items) == Unflag(old(View(items)), both)
  {
    ghost var s0 := View(items);
    for k := 0 to |both|
      invariant View(items) == Unflag(s0, both[..k])
    {
      var product := items[both[k]];
      product.IsDiscounted := false;
      assert both[..k + 1] == both[..k] + [both[k]];
      forall i | 0 <= i < |items|
        ensures View(items)[i] == Unflag(s0, both[..k + 1])[i]
      {
        if i != both[k] {
          assert items[i] != product;
        }
      }
    }
    assert both[..|both|] == both;
  }

  /** RuleBase.Process, dispatched on the rule's class. `ok` is false when
      the rule threw; the cart then holds what was written before. */
  method ProcessRule(cart: CartContext, rule: Rule) returns (ok: bool)
    requires cart.Valid()
    modifies cart.PurchasedItems
    ensures View(cart.PurchasedItems) == RuleSpec(rule, old(View(cart.PurchasedItems))).lines
    ensures ok == RuleSpec(rule, old(View(cart.PurchasedItems))).ok
    decreases rule, 1
  {
    match rule
    case DiscountRule4(tag, special) =>
      ProcessDiscountRule4(cart, tag, special);
      ok := true;
    case DiscountRule6(tag, percentOff) =>
      ProcessDiscountRule6(cart, tag, percentOff);
      ok := true;
    case ComboDiscount(target) =>
      ok := ProcessComboDiscount(cart, target);
    case ComplexDiscountRule(d1, d2) =>
      ok := ProcessComplex(cart, d1, d2);
  }

  /** ComplexDiscountRule.Process: list the products carrying both targets
      and no discount, run the first rule, clear those products' flags, run
      the second rule. */
  method ProcessComplex(cart: CartContext, d1: Rule, d2: Rule) returns (ok: bool)
    requires cart.Valid()
    modifies cart.PurchasedItems
    ensures View(cart.PurchasedItems) == RuleSpec(ComplexDiscountRule(d1, d2), old(View(cart.PurchasedItems))).lines
    ensures ok == RuleSpec(ComplexDiscountRule(d1, d2), old(View(cart.PurchasedItems))).ok
    decreases ComplexDiscountRule(d1, d2), 0
  {
    var items := cart.PurchasedItems;
    ghost var s0 := View(items);
    var both := DoubleTargets(View(items), d1, d2);
    ghost var o1 := RuleSpec(d1, s0);
    ghost var o2 := RuleSpec(d2, Unflag(o1.lines, both));
    ComplexUnfold(d1, d2, s0);
    ok := ProcessRule(cart, d1);
    if !ok {
      return;
    }
    UnflagProducts(items, both);
    ok := ProcessRule(cart, d2);
  }

  lemma ComplexUnfold(d1: Rule, d2: Rule, s: seq<Line>)
    ensures var o1 := RuleSpec(d1, s);
      RuleSpec(ComplexDiscountRule(d1, d2), s) == if o1.ok then RuleSpec(d2, Unflag(o1.lines, DoubleTargets(s, d1, d2))) else o1
  {
  }

  class POS {
    var ActivedRules: seq<Rule>

    constructor ()
      ensures ActivedRules == []
    {
      ActivedRules := [];
    }

    /** `pos.ActivedRules.AddRange(...)` */
    method AddRules(rules: seq<Rule>)
      modifies this
      ensures ActivedRules == old(ActivedRules) + rules
    {
      ActivedRules := ActivedRules + rules;
    }

    /** POS.CheckoutProcess: every active rule in order, then the total of
        the net prices. `ok` is false when a rule threw; the total is then
        left as it was. */
    method CheckoutProcess(cart: CartContext) returns (ok: bool)
      requires cart.Valid()
      modifies cart, cart.PurchasedItems
      ensures View(cart.PurchasedItems) == RunRules(ActivedRules, old(View(cart.PurchasedItems))).lines
      ensures ok == RunRules(ActivedRules, old(View(cart.PurchasedItems))).ok
      ensures ok ==> cart.TotalPrice == NetTotal(View(cart.PurchasedItems))
      ensures !ok ==> cart.TotalPrice == old(cart.TotalPrice)
    {
      var items := cart.PurchasedItems;
      ghost var s0 := View(items);
      var rules := ActivedRules;
      for i := 0 to |rules|
        invariant View(items) == RunRules(rules[..i], s0).lines
        invariant RunRules(rules[..i], s0).ok
        invariant cart.TotalPrice == old(cart.TotalPrice)
      {
        assert rules[..i + 1][..i] == rules[..i];
        ok := ProcessRule(cart, rules[i]);
        if !ok {
          RunRulesStop(rules, s0, i + 1);
          return;
        }
      }
      assert rules[..|rules|] == rules;
      cart.TotalPrice := NetTotal(View(items));
      ok := true;
    }
  }

  /** Once a rule throws, the later rules never run. */
  lemma {:induction false} RunRulesStop(rules: seq<Rule>, s: seq<Line>, n: nat)
    requires n <= |rules| && !RunRules(rules[..n], s).ok
    ensures RunRules(rules, s) == RunRules(rules[..n], s)
    decreases |rules|
  {
    if n < |rules| {
      var init := rules[..|rules| - 1];
      assert init[..n] == rules[..n];
      RunRulesStop(init, s, n);
    } else {
      assert rules[..n] == rules;
    }
  }

  /** The checkout total is the catalogue price of the cart less every
      discount the rules granted. */
  lemma CheckoutTotal(rules: seq<Rule>, s: seq<Line>)
    requires RunRules(rules, s).ok
    ensures NetTotal(RunRules(rules, s).lines) == SumPrices(s) - SumDiscounts(RunRules(rules, s).lines)
  {
    var r := RunRules(rules, s).lines;
    NetTotalSplit(r);
    RunRulesSameGoods(rules, s);
    SumPricesSameGoods(s, r);
  }

  /** Two lines of one SKU, both eligible: the first opens a pair and is
      only marked, the second closes it at the special price. */
  lemma DiscountRule4Pair(d: Line, tag: string, special: real)
    requires Eligible(d, tag)
    ensures DiscountRule4Spec([d, d], tag, special) ==
      [d.(IsDiscounted := true), d.(Discount := d.Price - special, IsDiscounted := true)]
  {
    var s := [d, d];
    assert ActiveSku(s, tag, d.SKU) by {
      assert s[0].SKU == d.SKU && Eligible(s[0], tag);
    }
    assert CountSku(s, d.SKU, 0) == 0 && CountSku(s, d.SKU, 1) == 1 && CountSku(s, d.SKU, 2) == 2;
    assert Odd(1) && !Odd(0);
  }

  /** Two eligible lines, the first at least as dear, queue in cart order. */
  lemma EligibleByNetDescPair(a: Line, b: Line, tag: string)
    requires Eligible(a, tag) && Eligible(b, tag) && Net(a) >= Net(b)
    ensures EligibleByNetDesc([a, b], tag) == [0, 1]
  {
    WhereAll([a, b], Tagged(tag));
    assert seq(2, i => i) == [0, 1];
    SortByNetDescPair(a, b);
  }

  /** A stable sort keeps two lines that are already in order. */
  lemma SortByNetDescPair(a: Line, b: Line)
    requires Net(a) >= Net(b)
    ensures SortByNetDesc([a, b], [0, 1]) == [0, 1]
  {
    var s := [a, b];
    assert SortByNetDesc(s, [0]) == [0] by {
      assert [0][..0] == [];
    }
    assert [0, 1][..1] == [0];
  }

  /** Two eligible lines, the first at least as dear: the first gets the
      percentage, the second only the mark. */
  lemma DiscountRule6Pair(a: Line, b: Line, tag: string, percentOff: int)
    requires Eligible(a, tag) && Eligible(b, tag) && Net(a) >= Net(b)
    ensures var r := DiscountRule6Spec([a, b], tag, percentOff);
      |r| == 2 && r[0] == Cut6(a, percentOff) && r[1] == b.(IsDiscounted := true)
  {
    EligibleByNetDescPair(a, b, tag);
    var order: seq<nat> := [0, 1];
    assert order[..1] == [0];
    assert 1 !in order[..1] && 1 in order;
  }

  /** A filter that keeps every line yields every position. */
  lemma {:induction false} WhereAll(s: seq<Line>, f: Filter)
    requires forall i :: 0 <= i < |s| ==> Keeps(f, s[i])
    ensures Where(s, f) == seq(|s|, i => i)
  {
    if |s| > 0 {
      WhereAll(s[..|s| - 1], f);
      assert seq(|s|, i => i) == seq(|s| - 1, i => i) + [|s| - 1];
    }
  }

  /** No line carries any of the six tier tags: the combo rule pairs nothing
      and completes. */
  lemma ComboNothingTagged(s: seq<Line>, target: string)
    requires forall i :: 0 <= i < |s| ==> NoTierTag(s[i].Tags, target)
    ensures ComboPlan(s, target) == Plan([], true)
  {
    var t := ComboTags(target);
    forall k | 0 <= k < |t|
      ensures EligibleByNetDesc(s, t[k]) == []
    {
      NoneEligible(s, t[k]);
    }
    assert DrainAll([], [], [], [], [], []) == Plan([], true);
  }

  lemma ComboIdle(s: seq<Line>, target: string)
    requires ComboPlan(s, target) == Plan([], true)
    ensures RuleSpec(ComboDiscount(target), s) == Outcome(s, true)
  {
    assert ApplyPairs(s, []) == s;
  }

  lemma {:induction false} WhereNone(s: seq<Line>, f: Filter)
    requires forall i :: 0 <= i < |s| ==> !Keeps(f, s[i])
    ensures Where(s, f) == []
  {
    if |s| > 0 {
      assert forall i :: 0 <= i < |s| - 1 ==> s[..|s| - 1][i] == s[i];
      WhereNone(s[..|s| - 1], f);
    }
  }

  /** The tag set holds none of the six tier tags of the combo. */
  ghost predicate NoTierTag(tags: set<string>, target: string)
  {
    forall k :: 0 <= k < |ComboTags(target)| ==> ComboTags(target)[k] !in tags
  }

  lemma NoneEligible(s: seq<Line>, tag: string)
    requires forall i :: 0 <= i < |s| ==> tag !in s[i].Tags
    ensures EligibleByNetDesc(s, tag) == []
  {
    WhereNone(s, Tagged(tag));
  }

  lemma UnflagPair(s: seq<Line>, ps: seq<nat>)
    requires |s| == 2 && 0 in ps && 1 in ps
    ensures Unflag(s, ps) == [s[0].(IsDiscounted := false), s[1].(IsDiscounted := false)]
  {
  }

  /** ComplexDiscountRule(DiscountRule4, DiscountRule6) on two units of one
      product that carries both targets: the first rule sells the second
      unit at the add-on price, the flags are cleared, and the second rule
      takes the percentage off the dearer net price, the first unit's. */
  lemma ComplexPair(d: Line, tag4: string, special: real, tag6: string, percentOff: int)
    requires Eligible(d, tag4) && Eligible(d, tag6) && d.Discount == 0.0 && special <= d.Price
    ensures var o := RuleSpec(ComplexDiscountRule(DiscountRule4(tag4, special), DiscountRule6(tag6, percentOff)), [d, d]);
      o.ok && |o.lines| == 2 &&
      o.lines[0] == Cut6(d, percentOff) &&
      o.lines[1] == d.(Discount := d.Price - special, IsDiscounted := true)
  {
    var s := [d, d];
    var rule4, rule6 := DiscountRule4(tag4, special), DiscountRule6(tag6, percentOff);
    ComplexUnfold(rule4, rule6, s);
    // the first rule pairs the two units
    DiscountRule4Pair(d, tag4, special);
    var r4 := DiscountRule4Spec(s, tag4, special);
    assert RuleSpec(rule4, s) == Outcome(r4, true);
    // both units carried both targets, so both flags are cleared
    var both := DoubleTargets(s, rule4, rule6);
    assert 0 in both && 1 in both;
    var u := Unflag(r4, both);
    UnflagPair(r4, both);
    // the second rule cuts the dearer unit
    DiscountRule6Pair(r4[0].(IsDiscounted := false), r4[1].(IsDiscounted := false), tag6, percentOff);
    assert RuleSpec(rule6, u) == Outcome(DiscountRule6Spec(u, tag6, percentOff), true);
  }

  /** Two rules run one after the other, the second only when the first
      completes. */
  lemma RunTwoRules(r1: Rule, r2: Rule, s: seq<Line>)
    ensures RunRules([r1, r2], s) == var o := RuleSpec(r1, s); if o.ok then RuleSpec(r2, o.lines) else o
  {
    assert [r1, r2][..1] == [r1] && [r1][..0] == [];
    assert RunRules([], s) == Outcome(s, true);
    assert RunRules([r1], s) == RuleSpec(r1, s);
  }

  lemma NetTotalPair(a: Line, b: Line)
    ensures NetTotal([a, b]) == Net(a) + Net(b)
  {
    assert [a, b][..1] == [a] && [a][..0] == [];
    assert NetTotal([a]) == Net(a);
  }

  /** The rule list of LoadRules (JulianDemo/Program.cs) on such a pair
      that carries no tier tag: the combo rule pairs nothing, and the
      checkout total is the percentage-cut price plus the add-on price. */
  lemma ComplexPairCheckout(d: Line, tag4: string, special: real, tag6: string, percentOff: int, combo: string)
    requires Eligible(d, tag4) && Eligible(d, tag6) && d.Discount == 0.0 && special <= d.Price
    requires NoTierTag(d.Tags, combo)
    ensures var rules := [ComplexDiscountRule(DiscountRule4(tag4, special), DiscountRule6(tag6, percentOff)), ComboDiscount(combo)];
      var o := RunRules(rules, [d, d]);
      o.ok && o.lines == [Cut6(d, percentOff), d.(Discount := d.Price - special, IsDiscounted := true)] &&
      NetTotal(o.lines) == d.Price - Percent(d.Price, percentOff) + special
  {
    var complex := ComplexDiscountRule(DiscountRule4(tag4, special), DiscountRule6(tag6, percentOff));
    var x, y := Cut6(d, percentOff), d.(Discount := d.Price - special, IsDiscounted := true);
    ComplexPair(d, tag4, special, tag6, percentOff);
    assert RuleSpec(complex, [d, d]) == Outcome([x, y], true);
    forall i | 0 <= i < 2
      ensures NoTierTag([x, y][i].Tags, combo)
    {
      assert [x, y][i].Tags == d.Tags;
    }
    ComboNothingTagged([x, y], combo);
    ComboIdle([x, y], combo);
    RunTwoRules(complex, ComboDiscount(combo), [d, d]);
    NetTotalPair(x, y);
  }

  /** The rules LoadRules returns. */
  function DemoRules(): seq<Rule>
  {
    [ComplexDiscountRule(DiscountRule4("同商品加購優惠", 10.0), DiscountRule6("熱銷飲品", 12)),
     ComboDiscount("餐餐超值配")]
  }

  /** Two bottles of a 65-dollar drink tagged for both sub-rules, checked
      out under LoadRules: one bottle at 65 less 12%, the other at the
      add-on price of 10, a total of 67.2. */
  lemma DemoCheckout()
    ensures var d := Line("A", 65.0, {"同商品加購優惠", "熱銷飲品"}, 0.0, false);
      var o := RunRules(DemoRules(), [d, d]);
      o.ok && NetTotal(o.lines) == 67.2
  {
    var d := Line("A", 65.0, {"同商品加購優惠", "熱銷飲品"}, 0.0, false);
    var combo := "餐餐超值配";
    forall k | 0 <= k < |ComboTags(combo)|
      ensures ComboTags(combo)[k] !in d.Tags
    {
      assert ComboTags(combo)[k][5] == '/';
    }
    ComplexPairCheckout(d, "同商品加購優惠", 10.0, "熱銷飲品", 12, combo);
  }
}
