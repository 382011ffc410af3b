# Path of Exile 2 currency rates and arbitrage, in Dafny

This project models the computational core of a Path of Exile 2 currency
exchange tool and proves properties of that model:

- **The rate matrix.** `CurrencyRateMatrix` is a square table of exchange
  rates over a registry of currency ids. A fresh matrix holds 1.0 on the
  diagonal and 0.0 ("unknown") everywhere else. `set_rate` validates its
  arguments, then writes a rate and its reciprocal. Guarded lookups and
  conversion read the table. A base-currency loader and a quote loader fill
  it. Transitive completion makes `a→c` known whenever `a→b` and `b→c` are.
  A price table lists every currency priced in one base, highest first.
  `RateMetadata` decides expiry from a time-to-live.
- **The arbitrage finder.** `ArbitrageFinder` evaluates every cycle
  `start → A → B → start` on a matrix. Each hop multiplies by the rate less a
  slippage fraction. A cycle with a missing hop is discarded. Opportunities
  whose profit percentage reaches the threshold are kept, stably sorted best
  first, and cut to `max_results`. Besides the search, the model covers the
  best opportunity, the per-currency analysis and the summary statistics.
- **Static-data arbitrage.** The same three-hop enumeration runs over a
  plain nested rate dictionary. Lookups fall back to the inverse entry. The
  profit is a *fraction* compared with a fractional threshold. Reported
  figures are rounded.
- **Scraper helpers.** The POE2Scout service selects the most popular
  currencies as the registry, maps POE2Scout display names to internal ids,
  and fills estimated rates for a few minor currencies.

Modules, by file:

| file | module | contents |
|---|---|---|
| `wrappers.dfy` | `Wrappers` | `Option`, `Result`, and `Outcome` (success or a raised error) |
| `sequences.dfy` | `Sequences` | Python's stable descending sort as an insertion sort, and slicing |
| `text.dfy` | `Text` | ASCII `lower`, `capitalize`, `split`, `join`, `replace`, substring tests |
| `rate_table.dfy` | `RateTable` | the rate table as a value, and the specification functions of every update |
| `completion.dfy` | `Completion` | why one completion sweep per registered currency is enough |
| `rates.dfy` | `Rates` | `RateMetadata`, and the class `RateMatrix` with its loops |
| `arbitrage.dfy` | `Arbitrage` | opportunities, path evaluation, the finder and its statistics |
| `static_data.dfy` | `StaticData` | the static-data lookups and arbitrage search |
| `poe2scout.dfy` | `Poe2Scout` | registry selection, name mapping and fallback rates |

Design of the model:

- **The rate table.** The table is a `map<string, map<string, real>>`, as
  in the source: a dictionary of dictionaries. `RateTable.Get` reads it,
  with 0.0 for an absent entry.
- **How updates are specified.** Every update of the source is a function
  on tables: `SetRateSpec`, `ApplyQuotes`, `Derive`, `Pass` and `Completed`.
  The methods of `Rates.RateMatrix` change the field `rates` and are proved
  to leave exactly what those functions compute.
- **The class invariant.** `Valid()` says:
  - every row covers the registry;
  - rates are non-negative;
  - off-diagonal entries are reciprocal;
  - the diagonal is positive.
- **The identity diagonal.** It is kept apart, in `IdentityDiagonal()`,
  because `set_rate(x, x, r)` is not guarded in the source. That call leaves
  `1/r` on the diagonal, and the model records this behaviour.
- **Other Python semantics.**
  - Raised exceptions are `Result`/`Outcome` errors.
  - `list.sort` and `sorted` with `reverse=True` are a stable descending
    insertion sort (`Sequences.SortDesc`).
  - Python's `int()` truncation and slicing with a possibly negative bound
    are written out.
  - `datetime.utcnow()` becomes a `now` parameter in seconds.
  - The static tables and the currency list of the static-data functions are
    parameters instead of files.
- **The copies.** backend/models/arbitrage.py and
  backend/services/poe2scout.py are byte-identical to their api/
  counterparts. Each member below models both copies; the table cites the
  api/ file.

## Model

| member | source | states |
|---|---|---|
| Rates.RateMetadata.IsExpired | api/models/rates.py:24-29 | `is_expired` with the time as a parameter; its properties are stated by `ExpiryIsPermanent` and `FreshWhenFetched` |
| Rates.ExpiryIsPermanent | api/models/rates.py:24-29 | once expired, the metadata stays expired at every later time |
| Rates.FreshWhenFetched | api/models/rates.py:16-29 | with a non-negative TTL, metadata is not expired at its own fetch time |
| Rates.DefaultNamesCoverDefaults | api/models/rates.py:68-101 | every default supported currency has an entry in `CURRENCY_NAMES` |
| Rates.TitleWord | api/models/rates.py:148-152 | the word written in a display name (lowercase for of/the/and, capitalized otherwise) has the same lowercase form as the key word |
| Rates.TitleWords | api/models/rates.py:146-152 | one display word per key word, in order |
| Rates.TitleCaseRoundTrip | api/models/rates.py:143-155 | lowercasing the Title Case name and turning spaces back into underscores gives the lowercase key |
| Rates.GenerateDisplayName | api/models/rates.py:139-163 | `_generate_display_name`; its properties are stated by `TitleCaseRoundTrip`, `DisplayNameRoundTrip` and `DisplayNameOmen` |
| Rates.DisplayNameRoundTrip | api/models/rates.py:139-163 | when the "Omen " → "Omen of " rewrite does not apply, the generated display name converts back to the key |
| Rates.DisplayNameOmen | api/models/rates.py:157-161 | when the omen rewrite applies, the name holds "Omen of " if the Title Case name holds "Omen ", and is the Title Case name unchanged otherwise |
| Rates.SnakeLowerJoin | api/models/rates.py:144-155 | joining title words with spaces and joining the key words with underscores agree after snake-casing |
| Rates.BuildDynamicCurrencyNames | api/models/rates.py:120-137 | the names map has exactly the given currencies as keys; each takes its hard-coded name when there is one, else the generated one |
| Rates.Others | api/models/rates.py:263-264 | the currencies the price loop visits are exactly the registered ones other than the base |
| Rates.PriceRowsContents | api/models/rates.py:262-271 | the loop appends one row per other currency, in registry order, with its display name, price `rate(currency, base)` and label |
| Rates.PriceTableContents | api/models/rates.py:257-275 | the sorted table lists every other currency and only those, with one row per other currency in the registry, each priced `rate(currency, base)` with its name and label; it is sorted non-increasing by price, and rows of equal price keep registry order |
| Rates.PriceTableDistinct | api/models/rates.py:262-275 | when the registry has no duplicates, no currency gets two rows |
| Rates.BuildInitialRates | api/models/rates.py:165-173 | the nested loop builds the identity table over the registry |
| Rates.BuildInitialRow | api/models/rates.py:168-173 | the inner loop builds one row: 1.0 on the diagonal, 0.0 elsewhere |
| Rates.DeriveThrough | api/models/rates.py:234-240 | one triple step: for distinct a, b, c with a→b and b→c positive and a→c zero, it writes a→c as the product and c→a as its reciprocal, else nothing |
| Rates.SweepPair | api/models/rates.py:233-240 | the innermost loop over c performs the triple steps for (a, b, c) in registry order |
| Rates.SweepRow | api/models/rates.py:232-240 | the loop over b performs the steps of every pair (a, b) in order |
| Rates.SweepTable | api/models/rates.py:231-240 | one sweep performs the steps of every triple in registry order |
| Rates.CompleteTable | api/models/rates.py:227-240 | the outer loop performs one sweep per registered currency |
| Rates.RateMatrix.constructor | api/models/rates.py:103-118 | a non-empty registry argument replaces the defaults and its names are built dynamically; otherwise the hard-coded registry and names are kept; the table is the identity table and the matrix is valid |
| Rates.RateMatrix.InitializeMatrix | api/models/rates.py:165-173 | the table becomes 1.0 on the diagonal and 0.0 for every other registered pair |
| Rates.RateMatrix.SetRate | api/models/rates.py:175-188 | an unregistered currency or a rate ≤ 0 raises and leaves the table unchanged; otherwise the table becomes `SetRateSpec` of the old one and stays valid; the identity diagonal survives when from ≠ to |
| Rates.RateMatrix.GetRate | api/models/rates.py:190-197 | `get_rate`; raises for an unregistered currency, the source checked first, and otherwise reads the stored entry; its properties are stated by `GetRateInverse` |
| Rates.RateMatrix.GetRateInverse | api/models/rates.py:187-197 | on a valid matrix, a known rate a→b (a ≠ b) has b→a equal to its reciprocal |
| Rates.RateMatrix.Convert | api/models/rates.py:199-204 | `convert`; raises for an unregistered currency or a rate ≤ 0; its properties are stated by `ConvertToSelf` and `ConvertRoundTrip` |
| Rates.RateMatrix.ConvertToSelf | api/models/rates.py:199-204 | with an identity diagonal, converting into the same currency returns the amount |
| Rates.RateMatrix.ConvertRoundTrip | api/models/rates.py:199-204 | converting a→b and back b→a returns the original amount |
| Rates.RateMatrix.ApplyQuote | api/models/rates.py:175-188 | one `set_rate` call of a run of calls extends the run's specification by that call, and a raised error ends it |
| Rates.RateMatrix.SetBaseRate | api/models/rates.py:215-217 | one iteration of the base loop: base→currency is set unless the currency is the base; a rejection becomes the result of the whole loop |
| Rates.RateMatrix.SetRatesFromBase | api/models/rates.py:206-220 | base→currency is set for every listed currency but the base, in order; the first rejection raises and leaves the rates set so far uncompleted; otherwise the table is completed transitively |
| Rates.RateMatrix.ComputeTransitiveRates | api/models/rates.py:222-240 | the table becomes `Completed` of the old one and stays valid |
| Rates.RateMatrix.GetPriceTable | api/models/rates.py:257-275 | an unregistered base raises; otherwise the result is the table `PriceTableContents` describes: every other currency, priced `rate(currency, base)` with its name and label, sorted non-increasing by price with ties in registry order, and each currency once when the registry has no duplicates |
| Rates.RateMatrix.SetQuote | api/models/rates.py:296-298 | one quote: a positive rate is set, a non-positive one skipped; a rejection becomes the result of the whole loop |
| Rates.RateMatrix.SetQuotes | api/models/rates.py:294-298 | every positive quote is set in order; the first rejected one raises, keeping the writes before it |
| Rates.RateMatrix.FromPoe2ScoutData | api/models/rates.py:277-300 | a fresh valid matrix over the default registry, with POE2Scout metadata fetched at `now` and a 300-second TTL, holding the quotes applied in order; an unsupported currency in a positive quote raises |
| RateTable.Put | api/models/rates.py:187-188 | one dictionary write changes only its entry |
| RateTable.InitialRatesWellFormed | api/models/rates.py:165-173 | the identity table holds 1.0 exactly on the diagonal and 0.0 on every other registered pair, and is well formed |
| RateTable.InitialRowsContents | api/models/rates.py:167-173 | the rows are exactly the registry, each covering the registry with identity entries |
| RateTable.InitialRowContents | api/models/rates.py:168-173 | one row covers the registry with 1.0 on the diagonal and 0.0 elsewhere |
| RateTable.SetRateSpec | api/models/rates.py:175-188 | the table `set_rate` leaves, or its error; its properties are stated by `SetRateEffect`, `SetRateFrame` and `SetRateKeepsIdentity` |
| RateTable.SetRateEffect | api/models/rates.py:175-188 | `set_rate` succeeds iff both currencies are registered and the rate is positive, and the checks run in source order (from, to, rate); on success a→b = r, b→a = 1/r, from = to leaves 1/r on the diagonal, nothing else changes, and the table stays well formed |
| RateTable.SetRateFrame | api/models/rates.py:187-188 | a successful write of a→b (a ≠ b) stores r and changes no entry other than a→b and b→a |
| RateTable.SetRateKeepsIdentity | api/models/rates.py:187-188 | writing a pair of different currencies keeps the diagonal at 1.0 |
| RateTable.ApplyQuotes | api/models/rates.py:294-298 | a run of `set_rate` calls; its properties are stated by `ApplyQuotesStopped`, `ApplyQuotesFailure`, `ApplyQuotesStopsAtFirst`, `ApplyQuotesWellFormed` and `ApplyQuotesIdentity` |
| RateTable.ApplyQuotesStopped | api/models/rates.py:295-298 | after a rejection, later quotes change nothing |
| RateTable.FirstRejected | api/models/rates.py:180-185 | the index of the first quote `set_rate` would reject; every earlier one is accepted |
| RateTable.ApplyAccepted | api/models/rates.py:180-188 | a run of accepted quotes raises nothing |
| RateTable.ApplyQuotesFailure | api/models/rates.py:180-188 | a run of `set_rate` calls raises nothing exactly when every quote is acceptable |
| RateTable.ApplyQuotesStopsAtFirst | api/models/rates.py:180-188 | a failing run raises the first rejected quote's error, with every earlier quote written |
| RateTable.ApplyQuotesWellFormed | api/models/rates.py:175-188 | a run of `set_rate` calls keeps the table well formed |
| RateTable.ApplyQuotesIdentity | api/models/rates.py:175-188 | a run of calls between different currencies keeps the identity diagonal |
| RateTable.BaseQuotes | api/models/rates.py:215-217 | the base loop sets only base→currency rates, and never base→base |
| RateTable.BaseQuotesContents | api/models/rates.py:215-217 | the base loop's calls are exactly the listed non-base currencies with their rates |
| RateTable.PositiveQuotes | api/models/rates.py:296-297 | the quote loop sets exactly the quotes with a positive rate |
| RateTable.PairTriplesMembers | api/models/rates.py:233-240 | the inner loop visits exactly the triples (a, b, c) with c registered |
| RateTable.RowTriplesMembers | api/models/rates.py:232-240 | the loop over b visits exactly the triples starting at a |
| RateTable.AllTriplesMembers | api/models/rates.py:231-240 | one sweep visits every registered triple |
| RateTable.FoldAppend | api/models/rates.py:231-240 | proof step of `CompletedIsTransitive` and `CompletedExtends`: performing two runs of steps one after the other is performing their concatenation |
| RateTable.DeriveExtends | api/models/rates.py:234-240 | a triple step writes only a zero entry with a positive value and its then-zero reciprocal, keeping the table well formed: the diagonal and positive entries are never touched |
| RateTable.PutPairExtends | api/models/rates.py:238-240 | writing a product into an unknown pair and its reciprocal only adds knowledge |
| RateTable.PutPairReciprocal | api/models/rates.py:239-240 | writing a new value and its reciprocal into an unknown pair keeps reciprocity |
| RateTable.DeriveClosed | api/models/rates.py:234-240 | a triple step keeps every set of currencies that is already closed under known rates closed |
| RateTable.DeriveJoins | api/models/rates.py:234-240 | after the step for (a, b, c) with a→b and b→c known, a→c is known |
| RateTable.FoldExtends | api/models/rates.py:231-240 | proof step of `CompletedIsTransitive` and `CompletedExtends`: any run of steps keeps the table well formed and only adds knowledge |
| RateTable.FoldClosed | api/models/rates.py:231-240 | proof step of `CompletedIsTransitive` and `CompletedExtends`: any run of registered steps keeps a closed set closed |
| RateTable.FoldJoins | api/models/rates.py:231-240 | proof step of `CompletedIsTransitive` and `CompletedExtends`: once the step for (a, b, c) runs with a→b and b→c known, a→c is known afterwards |
| RateTable.PassExtends | api/models/rates.py:231-240 | proof step of `CompletedIsTransitive` and `CompletedExtends`: a sweep keeps the table well formed and only adds knowledge |
| RateTable.PassClosed | api/models/rates.py:231-240 | proof step of `CompletedIsTransitive` and `CompletedExtends`: a sweep keeps a closed set closed |
| RateTable.PassJoins | api/models/rates.py:231-240 | proof step of `CompletedIsTransitive` and `CompletedExtends`: a sweep joins every pair of known hops a→b, b→c among distinct registered currencies |
| RateTable.PassesExtend | api/models/rates.py:230-240 | later sweeps only add knowledge |
| RateTable.PassesClosed | api/models/rates.py:230-240 | a closed set stays closed over further sweeps |
| Completion.ReachGrowsPerSweep | api/models/rates.py:230-240 | the currencies reachable from a only grow from sweep to sweep |
| Completion.ReachBounded | api/models/rates.py:227-230 | at most as many currencies as the registry holds are reachable |
| Completion.StableSweep | api/models/rates.py:230 | among the sweeps, one per registered currency, there is a sweep after which the reachable set stops growing |
| Completion.StableReachClosed | api/models/rates.py:231-240 | a reachable set that a sweep does not grow is closed under known rates |
| Completion.CompletedIsTransitive | api/models/rates.py:222-240 | after completion, for pairwise-distinct registered a, b, c with a→b and b→c known, a→c is known |
| Completion.CompletedExtends | api/models/rates.py:222-240 | completion keeps the table well formed and changes only unknown entries, so the first value found wins |
| Arbitrage.HopsViable | api/models/arbitrage.py:159-169 | walking a path succeeds exactly when every hop has registered currencies and a positive rate |
| Arbitrage.HopsSnoc | api/models/arbitrage.py:159-187 | a viable next hop appends one step to the steps walked so far |
| Arbitrage.HopsChained | api/models/arbitrage.py:155-187 | each step runs from path[k] to path[k+1] with rate `rate·(1-slippage)` and `amount_after = amount_before·rate`; the first `amount_before` is the starting amount and each later one is the previous `amount_after` |
| Arbitrage.HopsStop | api/models/arbitrage.py:166-169 | a path whose prefix is not viable is not viable |
| Arbitrage.NoSlippageFinal | api/models/arbitrage.py:172-187 | without slippage the final amount is the starting amount times the product of the path's rates |
| Arbitrage.PartnersMeaning | api/models/arbitrage.py:122 | the pairs of one row of `permutations(others, 2)` are A = others[i] with every other B so far |
| Arbitrage.PairsMeaning | api/models/arbitrage.py:118-122 | `permutations(others, 2)` yields exactly the ordered pairs of different positions |
| Arbitrage.MaxProfit | api/models/arbitrage.py:262 | the greatest profit percentage, attained by some opportunity |
| Arbitrage.MinProfit | api/models/arbitrage.py:265 | the least profit percentage, attained by some opportunity |
| Arbitrage.SummaryStats | api/models/arbitrage.py:247-266 | `get_summary_stats`; its properties are stated by `MaxProfit`, `MinProfit`, `SumBounds` and `SummaryOrdered` |
| Arbitrage.SumBounds | api/models/arbitrage.py:263 | the sum of n profits lies between n·least and n·greatest |
| Arbitrage.MeanBounds | api/models/arbitrage.py:263 | proof step of `SummaryOrdered`: a mean whose sum lies within those bounds lies between least and greatest |
| Arbitrage.SummaryOrdered | api/models/arbitrage.py:257-266 | for a non-empty list: the count is its length, and worst ≤ average ≤ best, where best and worst are attained |
| Arbitrage.ArbitrageFinder.Evaluate | api/models/arbitrage.py:137-204 | `_evaluate_path`; its properties are stated by `EvaluateMeaning` |
| Arbitrage.ArbitrageFinder.EvaluateMeaning | api/models/arbitrage.py:137-204 | a found opportunity starts at path[0] with the starting amount, has chained steps, `final` the last amount, `profit = final - start`, `percentage = profit/start·100` and percentage ≥ threshold; a zero starting amount on a viable path raises division by zero; an opportunity is found exactly when the path has ≥ 2 entries, every hop is viable and the percentage reaches the threshold |
| Arbitrage.ArbitrageFinder.EvaluatePath | api/models/arbitrage.py:137-204 | the loop computes the evaluation `Evaluate` specifies |
| Arbitrage.ArbitrageFinder.RunHops | api/models/arbitrage.py:155-187 | the hop loop computes the walked steps and the final amount, or stops at the first non-viable hop |
| Arbitrage.ArbitrageFinder.FindOpportunities | api/models/arbitrage.py:97-135 | the loop, sort and truncation compute `Search`, whose errors, results and selection `SearchErrors`, `SearchResults`, `SearchSelects` and `SearchKeepsBest` state |
| Arbitrage.ArbitrageFinder.ScanRow | api/models/arbitrage.py:122-126 | the pairs (others[i], B) extend the scan in permutation order |
| Arbitrage.ArbitrageFinder.ScanCell | api/models/arbitrage.py:122-126 | one candidate extends the scan by its evaluation |
| Arbitrage.ArbitrageFinder.RowStops | api/models/arbitrage.py:124 | proof step of `ScanRow`: after a division by zero the rest of the row changes nothing |
| Arbitrage.ArbitrageFinder.RowNext | api/models/arbitrage.py:123-126 | proof step of `ScanRow`: one candidate: division by zero propagates, an opportunity reaching the threshold is appended, anything else is dropped |
| Arbitrage.ArbitrageFinder.ScanAborts | api/models/arbitrage.py:122-124 | a division by zero part-way through the permutations is the result of the whole search |
| Arbitrage.ArbitrageFinder.ScanStops | api/models/arbitrage.py:122-124 | after a division by zero, later pairs change nothing |
| Arbitrage.ArbitrageFinder.ScanKeeps | api/models/arbitrage.py:122-126 | every kept opportunity is found by the evaluation of some scanned pair |
| Arbitrage.ArbitrageFinder.ScanComplete | api/models/arbitrage.py:122-126 | every scanned pair that yields an opportunity contributes it |
| Arbitrage.ArbitrageFinder.ScanFails | api/models/arbitrage.py:192 | the scan fails only by division by zero with a zero starting amount, and a non-zero amount never fails |
| Arbitrage.ArbitrageFinder.CandidateShape | api/models/arbitrage.py:118-126 | an opportunity of a candidate has three steps start → A → B → start, with A and B registered and different from start, and reaches the threshold |
| Arbitrage.ArbitrageFinder.Search | api/models/arbitrage.py:97-135 | `find_opportunities` as a function; its properties are stated by `SearchErrors`, `SearchResults`, `SearchSelects` and `SearchKeepsBest` |
| Arbitrage.ArbitrageFinder.SearchErrors | api/models/arbitrage.py:112-129 | an unregistered starting currency raises, and only then; other errors are division by zero with a zero amount; `max_steps ≠ 3` gives an empty list |
| Arbitrage.ArbitrageFinder.SearchResults | api/models/arbitrage.py:118-135 | every result starts at start, reaches the threshold and has the three-step cycle shape; results are sorted non-increasing by profit percentage; there are at most `max_results` of them |
| Arbitrage.ArbitrageFinder.SearchSelects | api/models/arbitrage.py:118-135 | the result is the first `max_results` (all, when fewer are kept) of an ordering of the kept opportunities that is a permutation of them, best first, with opportunities of equal profit in the order the scan found them |
| Arbitrage.ArbitrageFinder.SearchKeepsBest | api/models/arbitrage.py:122-135 | an opportunity that the truncation drops is no better than any returned one |
| Arbitrage.ArbitrageFinder.BestIsBest | api/models/arbitrage.py:206-217 | for a registered start, `max_steps = 3`, a non-zero amount and `max_results > 0`: the search does not raise, the best opportunity is at least as profitable as every candidate's, and there is none exactly when no candidate yields an opportunity |
| Arbitrage.ArbitrageFinder.FindBestOpportunity | api/models/arbitrage.py:206-217 | computes `Best`: the head of the search, or none |
| Arbitrage.ArbitrageFinder.AnalyzeAllCurrencies | api/models/arbitrage.py:219-245 | one entry per registered currency, each its search result, or the empty list when that search raised |
| Arbitrage.ArbitrageFinder.AnalysisOfRegistered | api/models/arbitrage.py:230-237 | for a registered currency and a non-zero amount the analysis is the search result itself |
| Arbitrage.DefaultFinderFinal | api/models/arbitrage.py:85-94 | with the default settings (threshold 0.01 %, 3 steps, no slippage, 10 results), a found path ends with the starting amount times the product of its rates, and for a positive amount that product is at least 1.0001 |
| Arbitrage.DefaultFinderCap | api/models/arbitrage.py:85-94 | with the default settings a search returns at most 10 opportunities, each with a profit percentage of at least 0.01 |
| Arbitrage.PairsPrefix | api/models/arbitrage.py:122 | proof step of `FindOpportunities`: the pairs scanned so far are a prefix of the permutation order |
| StaticData.ExchangeRate | api/static_data.py:109-132 | `get_exchange_rate`; its properties are stated by `InverseLookup` |
| StaticData.InverseLookup | api/static_data.py:127-132 | without a direct entry the rate is the reciprocal of a positive inverse entry; it is non-zero exactly when such an entry exists |
| StaticData.ConvertCurrency | api/static_data.py:135-151 | `convert_currency`; its properties are stated by `ConvertRoundTrip` |
| StaticData.ConvertRoundTrip | api/static_data.py:135-151 | when only the direct entry a→b is stored and it is positive, converting a→b and back returns the amount |
| StaticData.HalfEven | api/static_data.py:219-221 | rounding to the nearest integer, ties to even, as Python's `round` does |
| StaticData.RoundBound | api/static_data.py:219-221 | `round(x, n)` is within half a unit in the last place of x |
| StaticData.RoundExact | api/static_data.py:219-221 | rounding leaves a number already at that precision unchanged |
| StaticData.PathOpportunity | api/static_data.py:187-245 | a path is reported exactly when all three rates are positive and the profit fraction reaches `min_profit` |
| StaticData.PathReportShape | api/static_data.py:208-245 | a report has path [start, b, c, start] and the starting amount; its percentage is the fraction times 100 rounded to 2 places and its final amount is rounded to 4 places; its steps follow the path with positive rates, and each step's input equals the previous step's output |
| StaticData.FindArbitrageOpportunities | api/static_data.py:154-250 | the nested loops and the sort compute `Opportunities` |
| StaticData.ScanPaths | api/static_data.py:183-245 | the inner loop appends the reports of one b in order |
| StaticData.TryPath | api/static_data.py:187-245 | one path computes its report, skipping it at the first non-positive rate |
| StaticData.RowFoundMeaning | api/static_data.py:183-245 | the reports for b are exactly those of the paths start → b → c → start with c ≠ start and c ≠ b |
| StaticData.AllFoundMeaning | api/static_data.py:179-245 | the reports are exactly those of paths through distinct b and c other than start |
| StaticData.Opportunities | api/static_data.py:154-250 | what `find_arbitrage_opportunities` returns; its properties are stated by `PathOpportunity`, `PathReportShape`, `AllFoundMeaning` and `OpportunitiesMeaning` |
| StaticData.OpportunitiesMeaning | api/static_data.py:179-250 | the output is sorted non-increasing by percentage; it is a stable permutation of the reports, with none dropped |
| Poe2Scout.Truncate | api/services/poe2scout.py:754 | Python's `int()` truncates toward zero |
| Poe2Scout.TargetCount | api/services/poe2scout.py:750-755 | `target = min(max(10, int(total·p)), 50)` |
| Poe2Scout.Ranked | api/services/poe2scout.py:743-747 | the metadata in non-increasing popularity, a permutation of the input, with items of equal popularity in dictionary order |
| Poe2Scout.AddCores | api/services/poe2scout.py:761-764 | the top slice is kept as a prefix and each core id present in the metadata is added once, without duplicates |
| Poe2Scout.AddCoresAppends | api/services/poe2scout.py:760-764 | with distinct core ids, the result is the top slice followed by exactly the core ids that are metadata keys and not in the slice, in the order of the core list |
| Poe2Scout.TopCurrencies | api/services/poe2scout.py:730-769 | what `_get_top_currencies` returns; its properties are stated by `TopCurrenciesShape`, `TopAreMostPopular` and `TopCurrenciesDistinct` |
| Poe2Scout.GetTopCurrencies | api/services/poe2scout.py:730-769 | the slice-and-append loop computes `TopCurrencies` |
| Poe2Scout.TopCurrenciesShape | api/services/poe2scout.py:754-764 | the first `target` keys by popularity come first, followed by the missing core ids that are metadata keys, in core order; there are at most `target + 3` ids, all metadata keys, and every core id in the metadata is included |
| Poe2Scout.TopAreMostPopular | api/services/poe2scout.py:743-758 | the chosen slice is sorted non-increasing by popularity and no unchosen currency is more popular than a chosen one |
| Poe2Scout.TopCurrenciesDistinct | api/services/poe2scout.py:743-764 | with distinct metadata keys the result has no duplicates |
| Poe2Scout.ExactKey | api/services/poe2scout.py:672-673 | an exact display-name match yields its key, and only a match yields one |
| Poe2Scout.FirstFuzzy | api/services/poe2scout.py:676-684 | the key of the first entry, in table order, whose lowercase name contains the lowercase input or is contained in it; none if no entry matches |
| Poe2Scout.MappingNamesUnique | api/services/poe2scout.py:638-669 | the display names of the mapping are pairwise different |
| Poe2Scout.MappingTargetsRegistered | api/services/poe2scout.py:638-669 | every mapped key is a default supported currency and non-empty |
| Poe2Scout.MapName | api/services/poe2scout.py:671-684 | an exact match yields its key; otherwise the first fuzzy match; a result is always some entry's key |
| Poe2Scout.MapCurrencyName | api/services/poe2scout.py:633-684 | `_map_currency_name`; its properties are stated by `MapName` and `MapCurrencyNameMeaning` |
| Poe2Scout.MapCurrencyNameMeaning | api/services/poe2scout.py:633-684 | on the real mapping: exact match, else the first fuzzy match, else none; a result is a registered, non-empty id |
| Poe2Scout.MapCurrencyNameDynamic | api/services/poe2scout.py:601-609 | a static key is returned unchanged; otherwise the derived key is |
| Poe2Scout.AddFallbackRates | api/services/poe2scout.py:771-797 | the table becomes `Fallback` of the old one, stays valid, and keeps the identity diagonal |
| Poe2Scout.FillKeepsWellFormed | api/services/poe2scout.py:790-793 | filling estimates keeps the table well formed |
| Poe2Scout.FillChangesOnly | api/services/poe2scout.py:790-793 | filling changes only currency→exalted entries (and their inverses) of currencies whose rate was ≤ 0 |
| Poe2Scout.FillWrites | api/services/poe2scout.py:790-793 | with exalted and every estimated currency registered and every estimate positive, each currency whose rate was ≤ 0 gets its estimate |
| Poe2Scout.Fallback | api/services/poe2scout.py:771-797 | what `_add_fallback_rates` leaves in the table; its properties are stated by `FallbackChangesOnly`, `FallbackKeepsKnown`, `FallbackFills` and `FallbackInertOnDefaultRegistry` |
| Poe2Scout.FallbackChangesOnly | api/services/poe2scout.py:777-797 | the fallback changes only the exalted entries of the estimated currencies that were unknown |
| Poe2Scout.FallbackKeepsKnown | api/services/poe2scout.py:791-792 | a currency already priced in exalted keeps its rate |
| Poe2Scout.FallbackFills | api/services/poe2scout.py:782-793 | with both base rates known and the three currencies registered, unknown fusing, jeweller and ancient get 2.34·chaos, 0.16·chaos and 2.4·divine |
| Poe2Scout.FallbackInertOnDefaultRegistry | api/services/poe2scout.py:790-797 | on the default registry the fallback never changes the table: `get_rate('fusing', 'exalted')` raises, and the exception ends it |
| Sequences.SortDescPermutes | api/models/arbitrage.py:132 | the sort is a permutation of its input |
| Sequences.SortDescSorted | api/models/rates.py:274 | the sort orders by the key, non-increasing |
| Sequences.SortDescStable | api/static_data.py:248 | the sort is stable: the elements with any one key keep their order |
| Sequences.SliceTo | api/models/arbitrage.py:135 | Python's `xs[:n]`, counting a negative n from the end |
| Text.JoinSplit | api/models/rates.py:144-155 | splitting on a separator and joining with it gives the string back |
| Text.ReplaceAbsent | api/models/rates.py:160-161 | `replace` of a pattern that does not occur leaves the string unchanged |
| Text.ReplaceContains | api/models/rates.py:160-161 | `replace` of a pattern that occurs leaves the replacement in the string |

## Left out

- Network and browser access, HTML scraping, HTTP routing, file loading, logging and the demo drivers have no behaviour to model here.
  - The static-data tables and the currency list become parameters.
  - `datetime.utcnow()` becomes a `now` parameter.
- The regular-expression cleanup of `_map_currency_name_dynamic` (api/services/poe2scout.py:611-631) is not modelled. Its result is the parameter `derived`; only the static-hit branch is modelled.
- `_get_fallback_rates` (api/services/poe2scout.py:799-860) is not modelled. It is dead code: it calls the matrix and metadata constructors with arguments they do not accept.
- `_build_rate_matrix` (api/services/poe2scout.py:686-728) is not modelled: it only glues a constructor, a `set_rate` loop that ignores errors, and `_add_fallback_rates`.
- Serialization is not modelled: `to_dict` in both files, `path_description`, and the `path_description` strings of static_data.py.
- Rates are `real`, not IEEE-754 floats. So `r * (1/r) == 1` holds in the model, and the model fixes no float behaviour such as overflow, NaN or loss of precision.
- Rounding is round-half-even on exact reals.
  - `StaticData.HalfEven`: Python's `round` agrees with it on reals, but not on the binary float that is its actual argument.
  - `formatted_price` (`f"{rate:.4f}"`) is a label holding the real price, not a string.
- `Text.Lower` and `Text.Capitalize` map ASCII letters only. Python's Unicode case mapping is not modelled.
- Arbitrage.ArbitrageFinder.AnalyzeAllCurrencies: the result is a `map`, so the registry order in which the source's dictionary was filled is not modelled.
- Default arguments become required parameters: `base_currency='exalted'` of `get_price_table`, `starting_amount=100.0` of `find_opportunities` and `find_best_opportunity`, `amount_per_currency=100.0` of `analyze_all_currencies`, `amount=100.0` and `min_profit=0.01` of `find_arbitrage_opportunities`, `top_percentage=0.8` of `_get_top_currencies`, and `league="Rise of the Abyssal"` of `from_poe2scout_data`. The defaults of `ArbitrageFinder.__init__` are the constant `Arbitrage.DefaultFinder`.
- Dictionaries the source iterates (rates per currency, `estimates`, quotes, base rates) are sequences in insertion order.
- `Rates.RateMatrix.GetPriceTable` builds its rows in a loop and then sorts a copy. The source sorts the list in place, and no other reference exists.
- Loops that update the matrix are split into per-iteration methods (`SetQuote`, `SetBaseRate`) and table-building methods (`SweepTable` and the methods under it). The class methods assign the result to the field, which the source updates entry by entry. Nothing else can observe the difference.
- `Poe2Scout.FallbackInertOnDefaultRegistry` records source behaviour, not an intended property. On the default registry, fusing, jeweller and ancient are not registered, so the fallback never writes anything.
