# Food-delivery marketplace analysis: a verified model of the chart tables

The analysis script loads a table of food-delivery orders and cleans its column
headers. It derives a per-order contribution margin, a profitability label, a
discount band and an order-value band. It then builds six small tables,
one for each chart:

1. mean order value and order count per payment method, by rising mean;
2. order count and GMV (gross merchandise value, the sum of order values) per month, in calendar order;
3. order count, margin total and mean order value for Profitable and Loss-Making orders;
4. mean order value, mean margin and count per discount band, in the fixed band order;
5. mean delivery fee as a percentage of order value, mean margin and count per
   order-value band, with one row for each of the four bands whether or not
   the band has orders;
6. per-restaurant refund counts and rates, and the ten restaurants with the
   highest refund rate among those with at least five orders.

The model states these tables as Dafny functions over a sequence of order
records. The lemmas prove what the charts rely on:

- each table's rows partition the orders, so the counts add up to the number of orders and the sums add up to the column sums;
- every row describes exactly the orders of its group;
- no order is lost;
- the bands are the intervals their if-chains define;
- the rates are percentages;
- the top-ten selection really picks the highest rates.

Modules:

- `Seqs`: column sums, means and their bounds.
- `Orders`: the order record and its columns.
- `Margin`: contribution margin and label.
- `Bands`: discount and order-value bands with their display orders.
- `Sorting`: a stable sort by one numeric column.
- `Grouping`: group-by over a list of keys, and the partition lemmas.
- `Rollups`: charts 1 to 5.
- `Refunds`: chart 6.
- `Headers`: header normalisation.

## Model

| member | source | states |
|---|---|---|
| Headers.Strip | python/analysis_visualizations.py:26 | `str.strip()`: the result is a middle slice of the header with only whitespace before and after it, and it neither starts nor ends with whitespace |
| Headers.Lower | python/analysis_visualizations.py:26 | `str.lower()`: same length, no capital letter left, each capital replaced by its lowercase letter (code point + 32), every other character unchanged |
| Headers.Replace | python/analysis_visualizations.py:26 | `str.replace` of one character: same length, the replaced character is gone, other characters are kept |
| Headers.ReplaceKeepsAbsent | python/analysis_visualizations.py:26 | replacing brings in no character other than the replacement |
| Headers.Normalize | python/analysis_visualizations.py:26 | the cleaned header has no whitespace at its ends, no capital, no space and no slash |
| Headers.NormalizeFixesNormalized | python/analysis_visualizations.py:26 | a header already in that form is left unchanged |
| Headers.NormalizeIdempotent | python/analysis_visualizations.py:26 | cleaning a header twice gives the same result as cleaning it once |
| Seqs.Mean | python/analysis_visualizations.py:56 | a `mean` aggregation (also at lines 108, 142-143, 186 and 228): the mean times the number of rows is the column sum |
| Margin.ContributionMargin | python/analysis_visualizations.py:34-39 | an order's margin is positive exactly when commission + delivery fee exceed processing fee + discounts + refunds, and zero exactly when they are equal |
| Margin.LabelName | python/analysis_visualizations.py:41 | the Profitable name starts with 'P' and the Loss-Making name with 'L', and no other label's does |
| Margin.LabelOf | python/analysis_visualizations.py:40-42 | an order is Profitable exactly when its margin is strictly positive, and Loss-Making exactly when it is zero or below |
| Margin.MarginOfColumnSums | python/analysis_visualizations.py:34-39 | the sum of the margin column is commission + delivery − processing − discounts − refunds over the column sums |
| Margin.LabelScenarios | python/analysis_visualizations.py:34-42 | worked orders with margins 7, −2 and 0; the zero margin is Loss-Making |
| Margin.LabelNamesDistinct | python/analysis_visualizations.py:41 | the two label strings differ |
| Bands.DiscountBandOf | python/analysis_visualizations.py:45-49 | No Discount is exactly d = 0; Low is d < 0 or 0 < d ≤ 5; Mid is 5 < d ≤ 15; High is d > 15 |
| Bands.DiscountLabel | python/analysis_visualizations.py:46-49 | every band's label is a key of the display-rank map |
| Bands.DiscountRank | python/analysis_visualizations.py:146-147 | every band label is a key of the rank map, and its rank is below 4 |
| Bands.DiscountRankInjective | python/analysis_visualizations.py:146 | different bands have different labels and different ranks |
| Bands.DiscountRankMonotone | python/analysis_visualizations.py:45-49 | for 0 ≤ d1 ≤ d2 the band of d1 ranks no higher than the band of d2 |
| Bands.DiscountRankNotMonotoneBelowZero | python/analysis_visualizations.py:45-47 | a discount of −1 lands in Low and ranks above a discount of 0 |
| Bands.OrderBandLabel | python/analysis_visualizations.py:177-180 | every band's label is in the display order |
| Bands.OrderBandOf | python/analysis_visualizations.py:176-180 | Low is v < 15, Mid 15 ≤ v < 30, High 30 ≤ v < 50, Premium v ≥ 50 |
| Bands.BandIndexMonotone | python/analysis_visualizations.py:176-182 | a larger order value never sits earlier in the display order |
| Bands.BandIndex | python/analysis_visualizations.py:182 | a band's position in the display order holds that band's label |
| Bands.BandsCover | python/analysis_visualizations.py:182 | the display order lists every band, each once |
| Bands.BandOrderListsEachBandOnce | python/analysis_visualizations.py:182 | each band's label appears at exactly one position |
| Sorting.SortBy | python/analysis_visualizations.py:58 | sorting returns a permutation of its input with ranks ascending |
| Sorting.SortByMembers | python/analysis_visualizations.py:58 | sorting keeps exactly the same rows |
| Sorting.SortByTotal | python/analysis_visualizations.py:58 | sorting does not change any column sum |
| Sorting.SortByKeepsDistinct | python/analysis_visualizations.py:216 | sorting distinct keys keeps them distinct |
| Sorting.SortByKeepsTies | python/analysis_visualizations.py:222 | the sort is stable: rows of equal rank keep the order they had in the input |
| Grouping.Keys | python/analysis_visualizations.py:55 | the group keys are distinct, cover every order's key, and each has a non-empty group |
| Grouping.GroupBy | python/analysis_visualizations.py:55 | one non-empty group per listed key that occurs, holding exactly the orders with that key, and every order's group is present |
| Grouping.GroupByPartitions | python/analysis_visualizations.py:55-58 | over distinct keys that cover every order, group sizes add up to the number of orders and group sums add up to the column sum |
| Grouping.GroupByAscending | python/analysis_visualizations.py:216 | grouping over keys listed in rising order gives groups in that order |
| Grouping.Summarise | python/analysis_visualizations.py:55-58 | one summary row per group, in group order |
| Grouping.RollupRowGroup | python/analysis_visualizations.py:55-58 | every summary row comes from the non-empty group of a listed key |
| Grouping.RollupCovers | python/analysis_visualizations.py:55-58 | the row of every order's group is in the summary |
| Grouping.RollupCount | python/analysis_visualizations.py:55-58 | the count column of a summary adds up to the number of orders |
| Grouping.RollupSum | python/analysis_visualizations.py:77-80 | a summed column of a summary adds up to the column sum over all orders |
| Rollups.DiscountBandColumn | python/analysis_visualizations.py:50 | the derived `discount_band` column: each order's band is exactly the interval its discount falls in |
| Rollups.OrderBandColumn | python/analysis_visualizations.py:181 | the derived `order_band` column: each order's band is exactly the interval its order value falls in |
| Rollups.PaymentRowOf | python/analysis_visualizations.py:55-58 | a payment method's row holds the group's size, and its mean order value times the size is the group's order value sum |
| Rollups.AovByPayment | python/analysis_visualizations.py:55-58 | rows by rising mean order value; each row is the mean and count of one payment method's orders; every method has a row; counts add up to the total |
| Rollups.MonthRowOf | python/analysis_visualizations.py:77-80 | a month's row holds the group's size and order value sum; the sum is not negative when no order value is |
| Rollups.MonthlyTrend | python/analysis_visualizations.py:77-80 | rows in month order; each row is one month's count and GMV; every month present has a row; counts and GMV add up to the totals |
| Rollups.ProfitRowOf | python/analysis_visualizations.py:105-109 | a label's row holds the group's size and margin sum, and its mean order value times the size is the group's order value sum |
| Rollups.ProfitSummary | python/analysis_visualizations.py:105-109 | at most two rows with different labels, ordered by label name: when both occur, Loss-Making comes first |
| Rollups.ProfitSummaryGroups | python/analysis_visualizations.py:105-109 | each row is the count, margin sum and mean order value of the orders with its label; every label that occurs has a row |
| Rollups.ProfitSummarySigns | python/analysis_visualizations.py:40-42 | the Profitable row's margin sum is positive; the Loss-Making row's is zero or below |
| Rollups.ProfitSummaryPartition | python/analysis_visualizations.py:105-109 | the two counts add up to the number of orders; the two margin sums add up to the total margin, which is the fee combination of the column sums |
| Rollups.LabelKeysCover | python/analysis_visualizations.py:105 | the label key list names every label once |
| Rollups.ImpactRowOf | python/analysis_visualizations.py:141-145 | a band's row holds the group's size, and its mean order value and mean margin times the size are the group's sums |
| Rollups.DiscountKeysByLabel | python/analysis_visualizations.py:141 | the discount key list is in the order `groupby` sorts the band labels |
| Rollups.ImpactRank | python/analysis_visualizations.py:147 | the `sort` column: a row's rank is its band label's value in the rank map, below 4 |
| Rollups.DiscountImpact | python/analysis_visualizations.py:141-148 | after the map-and-sort, the band ranks are non-decreasing |
| Rollups.DiscountImpactGroups | python/analysis_visualizations.py:141-145 | each row is the mean order value, mean margin and count of its band's orders; every band that occurs has a row |
| Rollups.DiscountKeysCover | python/analysis_visualizations.py:141 | the discount key list names every band once |
| Rollups.DiscountImpactPartition | python/analysis_visualizations.py:141-145 | the band counts add up to the number of orders |
| Rollups.FeeShareTotal | python/analysis_visualizations.py:184-185 | with fees between 0 and the order value, the summed fee shares lie between 0 and the order count |
| Rollups.BandRowOf | python/analysis_visualizations.py:183-188 | a band's row names the band; it has no values exactly when the band has no orders, and otherwise its count is the band's order count |
| Rollups.BandRowsFor | python/analysis_visualizations.py:183-188 | one row per listed band, and the counts add up to the group sizes |
| Rollups.BandData | python/analysis_visualizations.py:183-188 | exactly four rows following the display order, and their counts add up to the number of orders |
| Rollups.BandDataRows | python/analysis_visualizations.py:183-188 | a row is empty exactly when its band has no orders; otherwise it holds the band's fee percentage, mean margin and count |
| Rollups.BandPctBounds | python/analysis_visualizations.py:184-185 | with fees between 0 and the order value, a band's fee percentage lies in [0, 100] |
| Rollups.DeliveryFeePctBounds | python/analysis_visualizations.py:184-188 | the same bound for every non-empty row of the band table |
| Refunds.RefundOrders | python/analysis_visualizations.py:218 | the refunded count is at most the order count; it is 0 exactly when no order has a positive refund, and equals the order count exactly when every order does |
| Refunds.Percent | python/analysis_visualizations.py:221 | a share reported as a percentage scales back to the share, and lies in [0, 100] when the part is no larger than the whole |
| Refunds.RefundRowOf | python/analysis_visualizations.py:216-221 | a restaurant's row holds its order count, refunded count, refund sum and refund rate; 0 ≤ refunded ≤ total and 0 ≤ rate ≤ 100 |
| Refunds.SortedIdsRise | python/analysis_visualizations.py:216 | sorting the distinct restaurant ids puts them in strictly rising order |
| Refunds.RestaurantRefunds | python/analysis_visualizations.py:216-220 | one row per restaurant, in strictly rising restaurant order, as `groupby` sorts its keys |
| Refunds.RestaurantRefundsGroups | python/analysis_visualizations.py:216-221 | each row describes one restaurant's orders with the bounds above, and every restaurant with an order has a row |
| Refunds.RestaurantRefundsPartition | python/analysis_visualizations.py:216-219 | the restaurants' order counts add up to the number of orders, and their refund sums add up to the table's refund total |
| Refunds.Eligible | python/analysis_visualizations.py:222 | a row is kept exactly when its restaurant has at least 5 orders |
| Refunds.EligibleKeepsOrder | python/analysis_visualizations.py:222 | the filter keeps the rows in restaurant order |
| Refunds.TopRefund | python/analysis_visualizations.py:222 | exactly min(10, number of eligible restaurants) rows, none twice, each the row of a restaurant with at least 5 orders; by falling rate, equal rates by rising restaurant id (keep='first'); every eligible restaurant is in when there are fewer than 10; no eligible restaurant left out outranks one that is in |
| Refunds.PrefixBeatsRest | python/analysis_visualizations.py:222 | in a ranking by falling rate with ties in restaurant order, the first n rows are distinct, outrank each other in order, and outrank every row after them |
| Refunds.TopRefundMeanRate | python/analysis_visualizations.py:228-229 | whenever the chart has rows, the average refund rate line lies in [0, 100] |

## Left out

- Reading the CSV file, creating the output directory, drawing, the colours at line 225, saving figures and the progress messages are input/output and are not modelled.
- Date parsing (lines 29-31) is left out. Each order carries its month as a number, so months sort by calendar order.
- Floating-point arithmetic is modelled by exact real numbers. Display rounding in the chart labels is left out.
- Order and restaurant ids are natural numbers, and only the columns the tables read are kept in the order record.
- Headers.Lower: lowercases only the ASCII letters A-Z. Python's full Unicode lowercasing is left out. The whitespace that `Headers.Strip` removes is the set that `str.isspace()` accepts.
- Rollups.AovByPayment: ties in mean order value keep their key order, because the model's sort is stable. pandas' default sort for this call is not stable, so its order of tied rows is unspecified.
- Rollups.BandData: requires every order value to be positive. The script divides unguarded; a zero value would give an infinite or undefined share in pandas, and that case is not modelled.
- Rollups.BandData: the rows that `reindex` creates for a band without orders hold missing values. The model gives them no statistics (`None`).
- The band labels do not match the thresholds exactly. "Premium (> $50)" includes 50. "Low (1-5)" also takes discounts between 0 and 1, and negative ones. The model follows the thresholds, and the interval lemmas state what each band holds.
- pandas `groupby` sorts group keys. In the model, the label and discount-band key lists are written in that sorted order (`Rollups.ProfitSummary` and `Rollups.DiscountKeysByLabel` state it), and restaurant ids are sorted by value. `nlargest` is a stable sort by falling rate followed by taking the first ten; since the rows come in restaurant order, tied rates keep the lower restaurant id first, which `Refunds.TopRefund` states.
