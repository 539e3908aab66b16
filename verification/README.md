# Hybrid product recommender — a Dafny model

This project models the selection and ranking logic of a hybrid product
recommender for an online shop. A shopper types product ids into a
console loop. Each known id goes into a cart and triggers four engines:

- **Association rules**: the consequents of the best-ranked rules whose antecedent holds the product.
- **Popularity**: the best sellers of the current weekday and hour band, one per other category, then the best sellers of the product's own category.
- **User-based**: the favourites of the session that shares most cart products.
- **Item-based**: the products whose purchase pattern correlates best with the product's.

The four lists are merged, de-duplicated and sampled down to ten products.

Everything is pure functions over immutable data:

- The event table is a `seq<PreparedEvent>`.
- A matrix is a column index plus one row per session.
- Errors the Python code raises become `Result` values.
- The clock, the random source, the Apriori rule list and the Pearson correlations are inputs.

Randomness is modelled as follows:

- Python set iteration order and `random.sample` are a stream of draws consumed by `Sampling.Draw`.
- `Sampling.EveryArrangementReachable` shows that the draws can produce every repetition-free arrangement.
- So a contract that holds for all draws holds for whatever the random source does.
- Ties left open by pandas' unstable sorts are never pinned by a contract: the model sorts with a stable insertion sort, but the contracts state only the order of the keys.

Modules, in dependency order:

- `Common` (options, results, de-duplication, filtering).
- `Sampling`, `Ranking` (descending sort, "best n that pass a test").
- `DayTime` (hour bands, weekday names, the bucket label).
- `Events` (the prepared table, counting, the catalogue, product labels).
- `Matrices` (binary and count matrices, the mining row filter).
- `AssociationRules`, `Popularity`, `UserBased`, `ItemBased`.
- `ShoppingCart`, `Loop` (a read-evaluate loop over any loop body), `App` (command dispatch, one round of recommendation, the loop).

Three points where the model follows what the code does:

- An engine that raises is not skipped. The loop catches only `ValueError`, so an `IndexError` or `KeyError` stops the program; the model returns `Crashed`.
- The rule query takes the first element of every consequent, not only of one-product consequents.
- When the item-based shortlist is smaller than the requested count, the fallback samples the whole shortlist.

## Model

| member | source | states |
|---|---|---|
| ShoppingCart.Empty | funcs.py:25-26 | a new cart holds no product |
| ShoppingCart.Add | funcs.py:34-38 | adding appends the product at the end, keeps every earlier item in place and grows the cart by one |
| ShoppingCart.AddCounts | funcs.py:34-38 | adding raises the product's multiplicity by one, so repeats are kept, and leaves every other product's multiplicity alone |
| ShoppingCart.Clear | funcs.py:40-44 | after clearing no product is in the cart |
| DayTime.BandOfIsTheOnlyBin | funcs.py:198-201 | once the edges increase, every hour between the smallest and largest observed hour lies in exactly one right-closed bin, the band the fixed edges 3, 7, 11, 15, 19 name |
| DayTime.WeekdayNameRoundTrip | funcs.py:188-196 | the seven weekday names are distinct (each reads back to its index) and contain no "_" |
| DayTime.DayTimeLabelRoundTrip | funcs.py:203 | the bucket label "WEEKDAY_band" can be read back into its weekday and band |
| DayTime.DayTimeLabelInjective | funcs.py:203 | two buckets share a label only if they have the same weekday and band |
| Events.MinHour | funcs.py:199 | the smallest observed hour: it occurs, and no hour is smaller |
| Events.MaxHour | funcs.py:200 | the largest observed hour: it occurs, and no hour is larger |
| Events.IncreasingBins | funcs.py:198-200 | the edges [min-1, 3, 7, 11, 15, 19, max] increase exactly when the smallest hour is at most 3 and the largest at least 20 |
| Events.Prepare | funcs.py:186-203 | feature engineering fails (pd.cut's ValueError) exactly when no hour is at most 3 or no hour is at least 20, so also on an empty table; otherwise each row keeps its fields, gets the bin its hour falls in, its weekday's name and the label of weekday and band |
| Events.PreparedBandsFollowHours | funcs.py:198-201 | every prepared row's band is the band its hour names |
| Events.CountWhereIsRowCount | funcs.py:315 | counting rows that pass a test gives the number of positions that pass it |
| Events.CountWherePositive | funcs.py:315 | a count is positive exactly when some row passes the test |
| Events.Catalogue | recommendation_main_app.py:42 | each product id once; an id is in the catalogue exactly when some event names it |
| Events.FirstRowOf | funcs.py:277-278 | the first row about a product exists exactly when the product is in the catalogue; it is about that product and no earlier row is |
| Events.ProductLabel | funcs.py:273-283 | the label fails (IndexError) exactly for an unknown product; otherwise it is brand, category, name and id of the product's first row joined by ", ", with the brand left out when it is "None" |
| Matrices.PairCountMeaning | funcs.py:351 | the (session, product) group size is the number of events of that pair, positive exactly when the session touched the product |
| Matrices.BinaryMatrix | funcs.py:351-353 | one unique column per product and one row per session; an entry is 1 exactly when the session has an event about the product, and 0 otherwise |
| Matrices.CountMatrix | funcs.py:403-408 | same shape; an entry is present exactly when the session has an event about the product, and then equals the number of such events |
| Matrices.IndicatorMaskedSum | funcs.py:386 | over unique columns, a 0/1 row summed over chosen columns counts the chosen products it marks |
| Matrices.BinaryRowOverlap | funcs.py:386 | a binary row summed over any set of columns is the number of those products its session touched |
| Matrices.BinaryRowSum | funcs.py:227-228 | a binary row sums to the number of distinct products of its session |
| Matrices.MiningInput | funcs.py:230-233 | the mining input keeps every column and exactly the rows whose sum exceeds one |
| Matrices.MiningKeepsMultiProductSessions | funcs.py:227-233 | a session reaches Apriori exactly when it touched more than one distinct product |
| AssociationRules.FirstMatching | funcs.py:266-267 | min(20, matching rules) entries; entry k is a rule whose antecedent holds the product with exactly k such rules before it in the ranking, and every such rule with fewer than twenty before it is kept, at that position |
| AssociationRules.HeadsAreRuleHeads | funcs.py:266-268 | the candidate products are exactly the first consequent elements of those rules |
| AssociationRules.RuleHeadsEmpty | funcs.py:266-268 | there is a candidate exactly when some rule's antecedent holds the product |
| AssociationRules.RecommendByRules | funcs.py:266-268 | no repeats, only candidates, min(rec_count, number of candidates) of them, and empty (not an error) exactly when rec_count is 0 or no antecedent holds the product |
| Sampling.Sample | funcs.py:447-451 | random.sample fails exactly when more elements are asked for than the population holds, otherwise returns that many elements of the population, without repeats when the population has none |
| Sampling.EveryArrangementReachable | funcs.py:268 | every repetition-free arrangement of population elements is produced by the draws the lemma returns, so contracts over all draws cover every outcome of the random source |
| Ranking.SortDesc | funcs.py:317 | the sorted list has non-increasing keys and is a permutation of the input |
| Ranking.PrefixOutranksRest | funcs.py:330 | after a descending sort, nothing cut off by `[:n]` outranks what was kept |
| Ranking.TopKept | funcs.py:337-338 | sort, drop, cut: no repeats, only accepted elements, min(n, number accepted) of them, best first, and no accepted element left out outranks the last one kept |
| Popularity.CurrentDayTime | funcs.py:287-303 | the current bucket exists exactly when the clock's hour was observed (otherwise IndexError); it is the clock's weekday name joined to the band of a row observed at that hour |
| Popularity.CurrentDayTimeIsClockBucket | funcs.py:291-302 | on a prepared table the current bucket is the clock's weekday with the band of the clock's hour |
| Popularity.SalesCountPositive | funcs.py:315-316 | a (bucket, category, product) count is positive exactly when such a sale exists |
| Popularity.BucketProductsMembership | funcs.py:333-335 | the bucket's products of a category are exactly those sold there |
| Popularity.RankedBucketProducts | funcs.py:333-335 | those products once each, in non-increasing order of sales |
| Popularity.TopSeller | funcs.py:327-330 | `groupby("CATEGORY").head(1)` yields a product sold in that bucket and category that no other product outsells |
| Popularity.OtherCategoriesMembership | funcs.py:323-329 | the other categories are exactly those, apart from the purchased one, with a sale in the bucket |
| Popularity.RankedPicks | funcs.py:327-330 | one pick per other category of the bucket, each its category's best seller, in non-increasing count order |
| Popularity.DiffCategoryPicks | funcs.py:326-330 | at most diff_cat_rec_count picks, one per category, never the purchased category, each a best seller with positive count, counts non-increasing, and no category left out sells more than the last pick |
| Popularity.DiffCategoryCutoff | funcs.py:330 | a category cut off by `[:diff_cat_rec_count]` sells no product more often than the last pick kept |
| Popularity.SameCategoryPicks | funcs.py:333-338 | min(same_cat_rec_count, products of the category sold in the bucket other than the added one) distinct products, never the added one, best sellers first, none left out selling more than the last |
| Popularity.CategoryOf | funcs.py:320 | the purchased category exists exactly for a known product and is a category that product is filed under |
| Popularity.Bestsellers | funcs.py:306-342 | fails on an unobserved hour first, then on an unknown product; otherwise the different-category products followed by the same-category products |
| Popularity.BestsellersSoldNow | funcs.py:327-338 | every product returned was sold in the current bucket; the different-category part never uses the purchased category, the same-category part never the added product |
| Popularity.BestsellersAreKnown | funcs.py:306-342 | every product the popularity engine returns is a product of the event table |
| UserBased.ArgMax | funcs.py:386 | the head of a descending sort of the scores: no score is larger |
| UserBased.ScoreIsOverlap | funcs.py:386 | a session's score is the number of distinct cart products it touched |
| UserBased.SimilarSession | funcs.py:386 | fails (IndexError) exactly when there is no session; otherwise a session of the data that shares at least as many distinct cart products as any other |
| UserBased.SessionProductList | funcs.py:388-389 | the similar session's products, each once |
| UserBased.SessionFavourites | funcs.py:388-392 | min(rec_count, session products outside the cart) distinct products of that session, none in the cart, in non-increasing order of event count, none left out more frequent than the last |
| UserBased.Recommend | funcs.py:372-394 | fails exactly when there is no session; otherwise the favourites of the most similar session, excluding the cart |
| UserBased.RecommendAvoidsCart | funcs.py:391-392 | the list never repeats a product and never offers one already in the cart |
| UserBased.RecommendIsKnown | funcs.py:372-394 | every product the user-based engine returns is a product of the event table |
| ItemBased.Shortlist | funcs.py:438-445 | at most five distinct columns, never the added product, each with a defined correlation above the threshold, in non-increasing correlation, and no qualifying product left out correlates more than the last |
| ItemBased.Recommend | funcs.py:433-453 | fails (KeyError) exactly for a product that is not a column; otherwise min(rec_count, shortlist size) distinct shortlist products, and the whole shortlist when rec_count reaches its size |
| ItemBased.RecommendAboveThreshold | funcs.py:438-447 | every product offered is a column other than the added one, correlating above the threshold |
| App.Classify | recommendation_main_app.py:35-42 | "e", "c", "p" in lower case are checked first; only other lines are taken as product ids, verbatim |
| App.CommandsIgnoreCase | recommendation_main_app.py:35-40 | a command is recognised exactly for its letter in either case |
| App.RunEngines | recommendation_main_app.py:47-51 | the four engines with the loop's arguments; the round fails exactly when one of them raises |
| App.MergeAndSample | recommendation_main_app.py:53-56 | sampling succeeds exactly when the lists propose at least ten distinct products, and then yields ten distinct proposed products |
| App.Recommend | recommendation_main_app.py:46-56 | an engine error passes through; otherwise ValueError exactly when fewer than ten distinct products were proposed, else ten distinct proposed products |
| App.KnownProductOnlyFailsOnClock | recommendation_main_app.py:42-51 | for a catalogue product the engines fail exactly when the current hour was never observed |
| App.RoundSkipsAddedProduct | recommendation_main_app.py:46-51 | the product added before the engines run is never offered back by the user-based or item-based engine |
| App.AddAndRecommend | recommendation_main_app.py:42-65 | a known id is appended and the round runs on the grown cart: ten products exactly when the round succeeds and every product has a label, and then those ten; "nothing to recommend" exactly on random.sample's ValueError; a crash exactly on an unobserved hour or on a product without a label; the loop goes on exactly after ten products |
| App.Step | recommendation_main_app.py:33-63 | "e" ends with the cart unchanged; "c" empties it; "p" shows it unchanged; an unknown id changes nothing; a known id gets AddAndRecommend's reply, tied to the round on the grown cart; the loop stops exactly on exit, nothing to recommend or a crash |
| App.EnginesProposeKnownProducts | recommendation_main_app.py:47-53 | when every rule's first consequent is a catalogue product, every product the four engines propose is one |
| App.RuleProposalsAreKnown | funcs.py:266-268 | under the same condition, every product the rule engine proposes is a catalogue product |
| App.FreshRulesLabelEveryProduct | recommendation_main_app.py:59-60 | under the same condition, printing the ten labels never raises |
| App.Run | recommendation_main_app.py:31-65 | no more replies than lines, all lines read while the loop runs, and no reply for no line |
| App.RunFollowsSteps | recommendation_main_app.py:31-65 | reply i of a run is Step's reply to line i on the cart the earlier lines left, and the run ends with the cart its replies left |
| App.BodyStopsExactly | recommendation_main_app.py:35-65 | one pass through the loop body goes on exactly when its reply is neither exit, nothing to recommend nor a crash |
| App.RunKeepsCartKnown | recommendation_main_app.py:42-46 | over any run, only catalogue products enter the cart |
| App.RunStopsOnlyOnEnd | recommendation_main_app.py:35-65 | a run stops only on "e", on too few products or on a crash, and that reply is the last one |
| Loop.Drive | recommendation_main_app.py:31-37 | the loop reads no more lines than it is given and reads them all unless a pass stops it |
| Loop.DriveFollowsBody | recommendation_main_app.py:31-37 | reply i is the body's reply to line i in the state the earlier lines left, and the run ends in the state its replies left |
| Loop.DriveStopsOnlyOnEnd | recommendation_main_app.py:31-37 | when the body goes on exactly after non-stopping replies, a stopped run ends with a stopping reply and no earlier reply stops |
| Loop.DriveKeeps | recommendation_main_app.py:31-37 | a property of the state that every pass keeps holds at the end of every run |

## Left out

- File and cache I/O: the JSON loading, the pickles and the `upgrade` switches. The model assumes the session matrix cache is `BinaryMatrix(events)` and the item matrix's columns are `CountMatrix(events).columns`. The rule cache is not assumed fresh: a rule may name a product outside the events, and the label loop then crashes, which the model returns as `Crashed(UnknownProduct)`. `App.FreshRules` states when that cannot happen.
- The column clean-up in `data_preparation` (upper-casing, dropping one-valued columns, NA filling and dropping), and the dtype helpers. Events arrive with hour and weekday already extracted.
- Apriori, rule generation and the metric sort: the rule list is an input, already ranked.
- Pearson `corrwith`: floating-point numerics. The correlations are an input, with `None` for NaN.
- `dt.datetime.now()`: the clock is an input.
- The `input`/`print` console and plotting.py. The labels printed for the added product and for the ten results are not part of the reply. Only whether `product_name` raises is modelled, as `App.Labelled`; the labels themselves are `Events.ProductLabel`.
- The dead `new_user_df` frame, and the no-op sort at funcs.py:433. Its `KeyError` for an unknown column is modelled as `ItemBased.Recommend`'s error.
- Popularity.CategoryOf: the code reads the category from the first row of the aggregate sorted descending by (bucket, category, count); the model takes the category of the product's first event. The two agree whenever a product id is filed under one category, and the contract only states that the result is one of the product's categories.
- App.Lower: only A-Z are folded. Python folds every cased letter, but no other character lowers to exactly "e", "c" or "p", so the commands are recognised the same way.
- Sampling.Sample: `random.sample` of a set, as the item engine calls it, works up to Python 3.10. From 3.11 it raises `TypeError`, which the loop does not catch; the model follows 3.10.
- Tie-breaks of pandas' unstable sorts and the order of Python sets are never fixed by a contract. The model's choices (stable insertion sort, first maximum, draws) are one admissible outcome.
