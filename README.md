# Checkout discount engines

This project models the two checkout discount engines of the DiscountDemo
repository and proves properties of them. Each engine is its own Dafny module.

- `JulianDemo` (`julian_demo.dfy`) models `JulianDemo/CartContext.cs`.
  Its rules write `Discount` and `IsDiscounted` on the cart's `Product` objects
  in place. `POS.CheckoutProcess` runs the rules in list order and then sets
  `TotalPrice` to the sum of the net prices `Price - Discount`. There are four
  rule kinds:
  - `DiscountRule4`: same SKU, the second item at a special price.
  - `DiscountRule6`: the dearer half of the tagged items get a percentage off.
  - `ComplexDiscountRule`: runs two rules and clears the flag of shared items
    between them.
  - `ComboDiscount`: pairs drinks with food from per-price-tier queues
    (39, 49, 59).
- `DiscountDemo` (`discount_demo.dfy`) models the `Andrew.DiscountDemo` engine
  in `Program.cs`. Here rules never touch products.
  `BuyMoreBoxesDiscountRule.Process` returns one `Discount` record for every
  `BoxCount` consecutive cart items. `POS.CheckoutProcess` clears the applied
  list, starts from the sum of the prices, then appends each rule's records
  and subtracts their amounts.

How the model is built:

- C# `decimal` is modelled as exact `real`.
- `Product` in `JulianDemo` is a class. Its constant fields are `Id`, `SKU`,
  `Price` and `Tags`; its mutable fields are `Discount` and `IsDiscounted`.
  Every rule is a method that `modifies` the cart's products.
- `View(items)` is the sequence of `Line` values that the products hold. Each
  rule method is proved against a pure specification function on those
  values, as `View(after) == Spec(View(before))`. The lemmas then state what
  each specification function does: who is discounted, by how much, and what
  stays unchanged.
- LINQ `Where`/`OrderByDescending` become the pure functions `Where` and
  `SortByNetDesc`. `SortByNetDesc` is a stable insertion sort by descending
  net price.
- `Queue<Product>` becomes a sequence of cart positions.
- `Dequeue` on an empty queue throws in C#. The model turns that throw into
  `ok == false`. Writes made before the throw are kept, and `TotalPrice` is
  then left as it was.

Behaviour of the code that the model keeps as written:

- The `JulianDemo` rules write to the products themselves and return no
  discount records. Rules run in list order, and a later rule sees what
  earlier rules wrote: `IsDiscounted` decides eligibility, and `Discount`
  changes the net price by which `DiscountRule6` and `ComboDiscount` rank
  and which `DiscountRule6` cuts.
- No discount amount is clamped or validated. `DiscountRule4` writes
  `Price - special` even when that is negative.
- `DiscountRule4`'s inner loop takes every item of the SKU. It ignores the tag
  and the `IsDiscounted` flag (`JulianDemo/CartContext.cs:81`).
- `DiscountRule6` discounts the first half of its ranked list, item by item.
  It does not discount pairs.
- `ComboDiscount` drains the queues under the `A && B || C` conditions as
  written. Its 39 loop ignores the drink count, because `drinkDict.Count` is
  always 3. These conditions make the rule fail in the cases stated by
  `ComboDiscountOk` and `DrainTierOk`.
- `BuyMoreBoxesDiscountRule` groups all cart items, not only the tagged ones.

## Model

| member | source | states |
|---|---|---|
| JulianDemo.Product.constructor | JulianDemo/CartContext.cs:13-22 | a new product holds the given identity, price and tags, with no discount and no flag |
| JulianDemo.CartContext.constructor | JulianDemo/CartContext.cs:7-11 | a new cart holds the given distinct products and a zero total |
| JulianDemo.NetTotalSplit | JulianDemo/CartContext.cs:46 | the sum of net prices equals the sum of prices minus the sum of discounts |
| JulianDemo.Where | JulianDemo/CartContext.cs:115-116 | the filter yields cart positions in increasing order, and a position is kept exactly when its line passes the filter |
| JulianDemo.InsertByNet | JulianDemo/CartContext.cs:117 | inserting a position adds exactly that position to the ranked list |
| JulianDemo.InsertByNetRanked | JulianDemo/CartContext.cs:117 | inserting a later position into a ranked list keeps it ranked by descending net, ties in cart order |
| JulianDemo.SortByNetDesc | JulianDemo/CartContext.cs:117 | the ordering is a permutation of its input positions |
| JulianDemo.SortByNetDescRanked | JulianDemo/CartContext.cs:117 | sorting positions given in cart order ranks them by descending net price, stably |
| JulianDemo.EligibleByNetDesc | JulianDemo/CartContext.cs:115-117 | the ranked selection holds only cart positions; EligibleByNetDescRanked states its contents and order |
| JulianDemo.EligibleByNetDescRanked | JulianDemo/CartContext.cs:115-117 | the selection holds exactly the tagged, undiscounted items, ranked by descending net with ties in cart order |
| JulianDemo.SetOfDistinct | JulianDemo/CartContext.cs:118 | a repetition-free queue has as many elements as its set |
| JulianDemo.EligibleByNetDescDistinct | JulianDemo/CartContext.cs:115-117 | no item occurs twice in the ranked selection |
| JulianDemo.RankedDistinct | JulianDemo/CartContext.cs:117 | a ranked list of positions has no repetition |
| JulianDemo.EligibleCount | JulianDemo/CartContext.cs:118 | the count of the selection equals the number of eligible items |
| JulianDemo.Rule6With | JulianDemo/CartContext.cs:119-130 | applying DiscountRule6 along an order keeps the cart length; Rule6WithByPositions states its effect item by item |
| JulianDemo.Rule6WithByPositions | JulianDemo/CartContext.cs:119-130 | a cart in which the first half of the order is cut, the second half only flagged, and the rest untouched is the DiscountRule6 outcome |
| JulianDemo.DiscountRule6Spec | JulianDemo/CartContext.cs:113-131 | DiscountRule6 keeps the cart length; its effect is stated by DiscountRule6Flags, DiscountRule6Half and DiscountRule6Dearer |
| JulianDemo.DiscountRule6Flags | JulianDemo/CartContext.cs:115-130 | after DiscountRule6 an item is flagged exactly when it was flagged or carries the tag; items not eligible are unchanged |
| JulianDemo.DiscountRule6Half | JulianDemo/CartContext.cs:118-127 | exactly half (rounded down) of the eligible items are discounted, each by PercentOff percent of its net price; every other eligible item keeps its discount and is only flagged |
| JulianDemo.DiscountRule6Dearer | JulianDemo/CartContext.cs:117-121 | every discounted item is dearer than every undiscounted eligible one, or as dear and earlier in the cart |
| JulianDemo.Rule6Iteration | JulianDemo/CartContext.cs:119-130 | one loop step discounts the item while the counter is positive, flags it, and decrements the counter |
| JulianDemo.DiscountProduct6 | JulianDemo/CartContext.cs:121-129 | one product gets PercentOff percent of its net taken off when chosen, and is flagged |
| JulianDemo.ProcessDiscountRule6 | JulianDemo/CartContext.cs:113-131 | the cart after the rule is DiscountRule6Spec of the cart before |
| JulianDemo.CountSkuStrict | JulianDemo/CartContext.cs:81 | a same-SKU item before position b raises the SKU count up to b |
| JulianDemo.SkusUpToActive | JulianDemo/CartContext.cs:75-78 | an SKU has been yielded by position n exactly when an eligible item of that SKU occurs before n |
| JulianDemo.DiscountRule4Spec | JulianDemo/CartContext.cs:72-97 | DiscountRule4 keeps the cart length; DiscountRule4Effect states its effect on each item |
| JulianDemo.OddParity | JulianDemo/CartContext.cs:84 | the pairing parity is the count modulo 2 |
| JulianDemo.CountSkuGrows | JulianDemo/CartContext.cs:81 | the SKU count rises between two positions exactly when a line of that SKU lies between them |
| JulianDemo.DiscountRule4Effect | JulianDemo/CartContext.cs:72-97 | an item whose SKU has no tagged, undiscounted item is unchanged; otherwise an item with an odd number of same-SKU items before it gets Discount = Price minus the special price and is flagged, one with an even number is only flagged when a same-SKU item follows, and is unchanged when none does |
| JulianDemo.CountSkuSameSkus | JulianDemo/CartContext.cs:81 | SKU counts depend on the SKUs alone, not on discounts or flags |
| JulianDemo.PairSkuSpec | JulianDemo/CartContext.cs:80-95 | pairing the items of one SKU keeps the cart length; it is the inner loop's target, each line of the SKU treated by its rank among that SKU's lines and every other line untouched |
| JulianDemo.PairingUnchanged | JulianDemo/CartContext.cs:81-95 | an item already paired is not changed by later items of its SKU |
| JulianDemo.PairStep | JulianDemo/CartContext.cs:83-94 | the next item of the SKU either opens a pair or completes one: the second gets Price minus the special price, both are flagged, and no other item changes |
| JulianDemo.DiscountRule4ByItems | JulianDemo/CartContext.cs:75-95 | a cart whose items are each paired exactly when their SKU has an eligible item is the DiscountRule4 outcome |
| JulianDemo.PairSkuStep | JulianDemo/CartContext.cs:79-95 | handling one more SKU pairs exactly the items of that SKU |
| JulianDemo.Rule4Step | JulianDemo/CartContext.cs:75-96 | one step of the outer SKU scan yields an SKU once, on its first eligible item, and pairs all its items |
| JulianDemo.ProcessDiscountRule4 | JulianDemo/CartContext.cs:72-97 | the cart after the rule is DiscountRule4Spec of the cart before |
| JulianDemo.PairSkuIteration | JulianDemo/CartContext.cs:81-95 | one step of the inner loop keeps at most one unpaired item in the buffer and writes a completed pair |
| JulianDemo.PairSku | JulianDemo/CartContext.cs:80-95 | the inner loop over one SKU gives PairSkuSpec of the cart before |
| JulianDemo.ComboDrink | JulianDemo/CartContext.cs:232-236 | a combo drink's net becomes the combo price and it is flagged; SKU, price and tags are kept |
| JulianDemo.ComboFood | JulianDemo/CartContext.cs:219-223 | a combo food's net becomes zero and it is flagged; SKU, price and tags are kept |
| JulianDemo.ApplyPair | JulianDemo/CartContext.cs:194-197 | applying one drink/food pair keeps the cart length; ApplyPairAt states its effect |
| JulianDemo.ApplyPairs | JulianDemo/CartContext.cs:191-216 | applying the pairs keeps the cart length; ApplyPairsEffect and ComboDiscountEffect state their effect |
| JulianDemo.Foods | JulianDemo/CartContext.cs:196 | proof helper: there is one food per pair; DrainTierFoods59 and DrainTierFoods49 state which foods are taken |
| JulianDemo.Drain39Shape | JulianDemo/CartContext.cs:191-198 | the 39 loop succeeds exactly when 39-food does not outnumber 39-drinks, and pairs the i-th drink with the i-th food at 39 |
| JulianDemo.DrainTierRests | JulianDemo/CartContext.cs:200-216 | a tier loop takes drinks from the front in order, at its own price, and leaves suffixes of both food queues |
| JulianDemo.DrainTierFoods59 | JulianDemo/CartContext.cs:205 | the 49 loop takes 59-food first, and takes 49-food only when 59-food has run out |
| JulianDemo.DrainTierFoods49 | JulianDemo/CartContext.cs:214 | the 59 loop takes 49-food first, and takes 59-food only when 49-food has run out |
| JulianDemo.DrainTierOk | JulianDemo/CartContext.cs:200-216 | a tier loop fails exactly when 59-food remains after the drinks run out; when it succeeds no 59-food is left |
| JulianDemo.Slots | JulianDemo/CartContext.cs:194-196 | proof helper: each pair takes two cart slots; ComboSlotsOnce states that no item is used twice |
| JulianDemo.SlotsAppend | JulianDemo/CartContext.cs:191-216 | the slots of consecutive loops are concatenated |
| JulianDemo.Drain39Slots | JulianDemo/CartContext.cs:191-198 | the 39 loop uses an item no more often than it occurs in its queues |
| JulianDemo.SlotsCountCons | JulianDemo/CartContext.cs:194-196 | a pair adds one use to its drink and one to its food |
| JulianDemo.DrainTierSlots | JulianDemo/CartContext.cs:200-216 | a tier loop uses an item no more often than it occurs in its queues |
| JulianDemo.DistinctCount | JulianDemo/CartContext.cs:182-188 | a repetition-free queue holds an item at most once |
| JulianDemo.QueueCount | JulianDemo/CartContext.cs:182-188 | a tier queue holds an item once when it is eligible for that tag, and otherwise not at all |
| JulianDemo.DrainAllSlots | JulianDemo/CartContext.cs:191-216 | the three loops together use an item no more often than it occurs in all six queues |
| JulianDemo.ComboQueuesDisjoint | JulianDemo/CartContext.cs:180-189 | when each item carries at most one tier tag, it is in at most one of the six queues |
| JulianDemo.SlotsHas | JulianDemo/CartContext.cs:194-196 | every paired drink and food is among the used slots |
| JulianDemo.SlotsSnoc | JulianDemo/CartContext.cs:194-196 | adding a pair adds its drink and food to the used slots |
| JulianDemo.ApplyPairAt | JulianDemo/CartContext.cs:194-197 | one pair changes exactly its drink and its food |
| JulianDemo.ApplyPairsEffectStep | JulianDemo/CartContext.cs:194-197 | adding a fresh pair keeps every earlier pair's result and changes no unused item |
| JulianDemo.ApplyPairsEffect | JulianDemo/CartContext.cs:191-216 | when no item is used twice, every drink is at its combo price, every food is free, and no other item changes |
| JulianDemo.ComboDiscountOk | JulianDemo/CartContext.cs:191-216 | ComboDiscount completes exactly when 39-food does not outnumber 39-drinks and 59-food does not outnumber 49-drinks |
| JulianDemo.ComboSlotsOnce | JulianDemo/CartContext.cs:176-216 | with at most one tier tag per item, no cart item is paired twice, and every paired position is in the cart |
| JulianDemo.ComboDiscountEffect | JulianDemo/CartContext.cs:176-236 | with at most one tier tag per item, each paired drink nets its combo price, each paired food nets zero, both are flagged, and every other item is unchanged |
| JulianDemo.ProcessComboItem | JulianDemo/CartContext.cs:225-230 | the item is flagged and nothing else changes |
| JulianDemo.ProcessComboFood | JulianDemo/CartContext.cs:219-223 | the food becomes ComboFood of its old value |
| JulianDemo.ProcessComboDrink | JulianDemo/CartContext.cs:232-236 | the drink becomes ComboDrink of its old value |
| JulianDemo.ProcessComboPair | JulianDemo/CartContext.cs:194-197 | dequeuing one drink and one food applies that pair to the cart |
| JulianDemo.ApplyPairsAppend | JulianDemo/CartContext.cs:191-216 | applying two runs of pairs in turn is applying their concatenation |
| JulianDemo.ComboTierIteration | JulianDemo/CartContext.cs:201-207 | one tier-loop step moves the cart and the queues along the tier's pairing plan |
| JulianDemo.DrainComboTier | JulianDemo/CartContext.cs:200-216 | a tier loop applies DrainTier's pairs and returns its outcome and the rest of both food queues |
| JulianDemo.TierDictSnoc | JulianDemo/CartContext.cs:180-189 | proof helper: one more round of the dictionary loop adds one key |
| JulianDemo.TierDictLast | JulianDemo/CartContext.cs:180-189 | the dictionary's keys are the prices, and each key holds the queue of its last write |
| JulianDemo.TierQueues | JulianDemo/CartContext.cs:180-189 | proof helper: there is one queue per tag; TierQueuesAt states each queue's contents |
| JulianDemo.TierQueuesAt | JulianDemo/CartContext.cs:182-188 | the j-th queue is the ranked selection for the j-th tag |
| JulianDemo.BuildComboQueues | JulianDemo/CartContext.cs:176-189 | the drink and food dictionaries map each price to its tier's ranked queue |
| JulianDemo.DrainCombo39 | JulianDemo/CartContext.cs:191-198 | the 39 loop applies Drain39's pairs and reports its outcome |
| JulianDemo.ComboDictsAt | JulianDemo/CartContext.cs:176-189 | each price is a key of both dictionaries and maps to the queue for its drink or food tag |
| JulianDemo.DrainComboQueues | JulianDemo/CartContext.cs:191-216 | the three loops apply DrainAll's pairs and report its outcome |
| JulianDemo.ProcessComboDiscount | JulianDemo/CartContext.cs:174-217 | the cart after the rule is the combo plan applied to the cart before, and the rule completes exactly when the plan does |
| JulianDemo.DoubleTargets | JulianDemo/CartContext.cs:148-152 | the snapshot holds exactly the undiscounted items carrying both sub-rules' tags |
| JulianDemo.Unflag | JulianDemo/CartContext.cs:157-160 | clearing flags keeps the cart length; ComplexSecondChance and ComplexOthersKept state its effect |
| JulianDemo.ApplyPairsSameGoods | JulianDemo/CartContext.cs:219-236 | combo pairing changes no SKU, price or tags |
| JulianDemo.Rule4SameGoods | JulianDemo/CartContext.cs:72-97 | DiscountRule4 changes no SKU, price or tags |
| JulianDemo.Rule6SameGoods | JulianDemo/CartContext.cs:113-131 | DiscountRule6 changes no SKU, price or tags |
| JulianDemo.SameGoodsTrans | JulianDemo/CartContext.cs:13-22 | keeping the goods is transitive |
| JulianDemo.UnflagSameGoods | JulianDemo/CartContext.cs:157-160 | clearing flags changes no SKU, price or tags |
| JulianDemo.RuleSameGoods | JulianDemo/CartContext.cs:57 | no rule changes an item's SKU, price or tags |
| JulianDemo.RunRulesSameGoods | JulianDemo/CartContext.cs:41-44 | running the rules changes no SKU, price or tags |
| JulianDemo.SumPricesSameGoods | JulianDemo/CartContext.cs:46 | carts with the same goods have the same sum of prices |
| JulianDemo.ComplexSecondChance | JulianDemo/CartContext.cs:148-162 | an item snapshotted before the first rule reaches the second rule as the first rule left it, with only its flag cleared, so it is eligible again and keeps any Discount the first rule wrote |
| JulianDemo.ComplexOthersKept | JulianDemo/CartContext.cs:155-162 | every item outside the snapshot reaches the second rule exactly as the first rule left it |
| JulianDemo.UnflagProducts | JulianDemo/CartContext.cs:157-160 | the loop clears the flag of exactly the snapshotted products |
| JulianDemo.ProcessRule | JulianDemo/CartContext.cs:57 | running a rule makes the cart its specification's outcome and reports whether it completed |
| JulianDemo.ProcessComplex | JulianDemo/CartContext.cs:146-163 | ComplexDiscountRule makes the cart its specification's outcome: first rule, unflag the snapshot, second rule |
| JulianDemo.ComplexUnfold | JulianDemo/CartContext.cs:146-163 | proof helper: ComplexDiscountRule runs the second rule on the first rule's result with the snapshot unflagged, and stops if the first rule fails |
| JulianDemo.POS.constructor | JulianDemo/CartContext.cs:35-37 | a new POS has no active rules |
| JulianDemo.POS.AddRules | JulianDemo/CartContext.cs:37 | the rules are appended to the active list |
| JulianDemo.POS.CheckoutProcess | JulianDemo/CartContext.cs:39-48 | the cart is the active rules run in order; on completion the total is the sum of net prices, and on a failure it is unchanged |
| JulianDemo.RunRulesStop | JulianDemo/CartContext.cs:41-44 | once a rule fails, the later rules do not run |
| JulianDemo.CheckoutTotal | JulianDemo/CartContext.cs:46 | the checkout total equals the original prices minus all the discounts written |
| JulianDemo.DiscountRule4Pair | JulianDemo/CartContext.cs:81-94 | two eligible items of one SKU: the first is flagged and the second costs the special price |
| JulianDemo.EligibleByNetDescPair | JulianDemo/CartContext.cs:115-117 | two eligible items with the first at least as dear keep cart order |
| JulianDemo.SortByNetDescPair | JulianDemo/CartContext.cs:117 | proof helper: sorting keeps two positions already in descending order |
| JulianDemo.DiscountRule6Pair | JulianDemo/CartContext.cs:118-130 | of two eligible items only the dearer is discounted, and both are flagged |
| JulianDemo.WhereAll | JulianDemo/CartContext.cs:115-116 | a filter passing every item keeps every position |
| JulianDemo.ComboNothingTagged | JulianDemo/CartContext.cs:176-216 | with no tier tags in the cart, the combo plan is empty and completes |
| JulianDemo.ComboIdle | JulianDemo/CartContext.cs:174-217 | proof helper: an empty plan leaves the cart unchanged |
| JulianDemo.WhereNone | JulianDemo/CartContext.cs:115-116 | a filter passing no item keeps nothing |
| JulianDemo.NoneEligible | JulianDemo/CartContext.cs:182-188 | a tag carried by no item selects nothing |
| JulianDemo.UnflagPair | JulianDemo/CartContext.cs:157-160 | proof helper: unflagging both items of a two-item cart clears both flags |
| JulianDemo.ComplexPair | JulianDemo/CartContext.cs:146-163 | on two units of one product both rules apply: the first unit gets the percentage off and the second the special price |
| JulianDemo.RunTwoRules | JulianDemo/CartContext.cs:41-44 | proof helper: two rules run one after the other, stopping at a failure |
| JulianDemo.NetTotalPair | JulianDemo/CartContext.cs:46 | proof helper: the total of two items is the sum of their nets |
| JulianDemo.ComplexPairCheckout | JulianDemo/CartContext.cs:39-48 | checking out the two units under ComplexDiscountRule and an idle combo rule gives those two lines and their total |
| JulianDemo.DemoCheckout | JulianDemo/Program.cs:53-56 | the demo rule list on two units of a 65.0 drink completes with total 67.2 |
| DiscountDemo.CartContext.constructor | Program.cs:53-58 | a new cart holds the given products, no applied discounts and a zero total |
| DiscountDemo.ProcessItem | Program.cs:122-136 | one loop step keeps the buffer as the items since the last full box, and the records as those of the full boxes so far |
| DiscountDemo.Process | Program.cs:118-138 | the rule yields BoxDiscounts of the cart's items |
| DiscountDemo.BoxDiscountsFullBox | Program.cs:126-135 | a completed box adds one record for exactly that box |
| DiscountDemo.BoxDiscountsPartialBox | Program.cs:122-137 | a partly filled buffer at the end yields no record |
| DiscountDemo.BoxDiscountsNone | Program.cs:124-126 | with BoxCount at most zero no record is produced |
| DiscountDemo.BoxDiscountsSnoc | Program.cs:126-135 | appending a full box after whole boxes appends its one record |
| DiscountDemo.BoxDiscountsTrailing | Program.cs:122-137 | fewer than BoxCount trailing items add no record |
| DiscountDemo.BoxDiscountsLength | Program.cs:120-137 | the records cover whole boxes only, and fewer than BoxCount items are left over |
| DiscountDemo.BoxDiscountsWindows | Program.cs:120-137 | the i-th record covers items i*k up to (i+1)*k-1, in cart order |
| DiscountDemo.BoxDiscountsCount | Program.cs:120-137 | n items give exactly n / BoxCount records, rounded down |
| DiscountDemo.BoxDiscountsCover | Program.cs:120-137 | the records together cover the cart's prefix of whole boxes; the trailing n mod k items are in none |
| DiscountDemo.BoxDiscountsCoverBoxes | Program.cs:120-137 | the records together cover exactly the first boxes of the cart, in order |
| DiscountDemo.CoveredPrepend | Program.cs:132 | the products covered by records are concatenated in record order |
| DiscountDemo.SumPricesNonNegative | Program.cs:131 | non-negative prices have a non-negative sum |
| DiscountDemo.DiscountAmountBounds | Program.cs:129-134 | every record names the producing rule; its amount is at least zero, and at most its products' price sum when PercentOff is at most 100 |
| DiscountDemo.PercentBounds | Program.cs:131 | a percentage between 0 and 100 of a non-negative amount lies between zero and the amount |
| DiscountDemo.PercentDistributes | Program.cs:131 | the percentage of a sum is the sum of the percentages |
| DiscountDemo.SumAmountsAppend | Program.cs:73-74 | amounts of concatenated record lists add up |
| DiscountDemo.SumPricesAppend | Program.cs:69 | prices of concatenated product lists add up |
| DiscountDemo.BoxDiscountsTotal | Program.cs:120-137 | the rule's total amount is PercentOff percent of the price sum of the covered products |
| DiscountDemo.POS.constructor | Program.cs:60-62 | a new POS holds the given active rules |
| DiscountDemo.POS.CheckoutProcess | Program.cs:64-77 | checkout returns true, keeps the items, and leaves exactly this run's records in rule order, with total equal to the sum of prices minus the sum of amounts |
| DiscountDemo.CheckoutTwice | Program.cs:64-77 | a second checkout on the same cart leaves exactly the records and the total of the first, and those records are AllDiscounts of the items |

## Left out

- `Main`, `LoadProducts` and `LoadRules` in both programs are not modelled. They do console output, JSON and file reading, and rule configuration. The rules at `JulianDemo/Program.cs:53-56` appear only as the worked example `DemoCheckout`.
- `Name`, `Note`, `Id` strings, `Product.TagsValue` and the `Note` concatenation in every rule are not modelled. They are display text that no price depends on.
- C# `decimal` is modelled as exact `real`. Overflow and 28-digit rounding are not modelled.
- A `Dequeue` on an empty queue, which throws in C#, is modelled as `ok == false`. The exception does not propagate through `POS.CheckoutProcess` as a real throw would. Its effect is modelled instead: the later rules do not run, and `TotalPrice` keeps its old value.
- JulianDemo.POS.CheckoutProcess: returns `ok == false` where C# would throw; on completion it returns true, as the source does.
- Null `Tags` are not modelled. `ComplexDiscountRule` never sets its `TargetTag`, so its target is `None`, which no item carries. This matters only when one `ComplexDiscountRule` is nested inside another.
- The cart's products are assumed to be distinct objects (`CartContext.Valid`). The loader creates a fresh object per item, so no product occurs twice in the list.
- LINQ laziness is not modelled. `DiscountRule6`'s ordered query is evaluated once, as a list. C# enumerates it twice, by `Count()` and by the `foreach`, and both passes give the same order: nothing is written before the `foreach` starts, and `OrderByDescending` sorts the whole filtered cart before it yields the first product. `DiscountRule4`'s lazy `Distinct` is modelled lazily: an SKU is yielded when the outer scan first meets an eligible item of it. The `yield` iterator of `BuyMoreBoxesDiscountRule` is modelled as a finished sequence.
- The price in the tier tags is written as the literal strings "39", "49" and "59". The formatting of an `int` into a string is not modelled.
- JulianDemo.ComplexSecondChance: states the snapshot items are eligible for the second rule; it does not say the second rule then discounts them, since that depends on the second rule's kind.
- JulianDemo.ComboSlotsOnce: assumes each item carries at most one of the six tier tags of the rule. An item with two tier tags can be paired twice in C#, and the model does not state that case.
- JulianDemo.ComboDiscountEffect: assumes the same single-tier-tag condition as `ComboSlotsOnce`.
