# OfferZon storefront core, modelled in Dafny

OfferZon is a deals storefront. Shoppers browse discounted offers. Admins publish offers through a dashboard backed by a Firestore collection. This project models the parts of the front end that compute something:

- **The shopper pipeline** (`App.tsx`). It starts from a copy of the deal list and keeps only the deals matching the selected category, store and lower-cased search text. It then sorts the copy in place under one of four orders. The "Reset all filters" button returns the three filters to their defaults.
  - Modelled in module `App`, in `app.dfy`.
  - `FilteredDeals` is the imperative pipeline, and `SortInPlace`/`InsertInPlace` sort an `array`. All three are proved equal to the specification functions `Pipeline`, `SortAll` and `Insert`.
  - `Storefront` is a class holding the four selectors.
- **The admin dashboard** (`components/Admin/Dashboard.tsx`). It covers the submit handler with its price check and discount formula, the record it writes, and the form reset. It also covers the inventory search and the "Total Deals" and "Loot Active" counters.
  - Modelled in module `Dashboard`, in `dashboard.dfy`.
  - `Dashboard` is a class whose `HandleSubmit` updates the form, the `loading`/`success` flags and a ghost log of written documents.
- **The seed catalogue** (`constants.tsx`). These are the eight literal deals the storefront lists, used here as concrete test vectors for the formula and the pipeline.
  - Modelled in module `Constants`, in `constants.dfy`.
- **The countdown of the hero banner** (`components/Hero.tsx`). It splits the milliseconds left in the day into hours, minutes and seconds, and shows each as a two-digit string.
  - Modelled in module `Hero`, in `hero.dfy`.

Shared modules:

- `Types` (`types.dfy`) holds the entities of `types.ts`.
- `Text` (`text.dfy`) holds ASCII `toLowerCase` and `includes`.
- `Seqs` (`seqs.dfy`) holds `Array.prototype.filter` and the notion of a subsequence.

JavaScript's `Array.prototype.sort` is stable. It is modelled as a stable insertion sort, specified by `SortAll`, and the comparators are kept exactly as written. Stability is proved for every sort option (`SortAllStable`, `PipelineStable`). Whole-rupee prices are `int`. The discount is `Math.round` of the exact rational saving `100 (o - d) / o`, computed as the integer quotient `(200 (o - d) + o) / (2 o)`.

Three behaviours of the code worth knowing when reading the model:

- The relevance comparator looks only at `isLoot` and returns 0 for every other pair. It has no `createdAt` tie-break, so ties keep input order because the sort is stable.
- The storefront's search text is matched against the title, the store and the category. The admin inventory search matches only the title and the store.
- The Electronics tab, under the relevance order, shows the seeds with ids 1, 2, 4 and 8.

## Model

| member | source | states |
|---|---|---|
| Types.CategoryName | types.ts:2-8 | the string value of each `Category` member; `Types.NamesAreDistinct` proves no two members share one |
| Types.StoreName | types.ts:10-16 | the string value of each `Store` member; `Types.NamesAreDistinct` proves no two members share one |
| Types.NamesAreDistinct | types.ts:2-16 | two enum members have the same string value exactly when they are the same member |
| Text.Lower | App.tsx:33 | `toLowerCase` keeps the length and lower-cases each character |
| Text.Contains | App.tsx:35-37 | `includes`: a query that occurs is no longer than the string; `Text.ContainsAt` proves it equal to "some window equals the query" |
| Text.ContainsAt | App.tsx:35-37 | `includes` holds exactly when some window of the string equals the query |
| Text.ContainsEmpty | components/Admin/Dashboard.tsx:76-79 | every string includes the empty string |
| Seqs.Filter | App.tsx:23 | `filter` never lengthens its input; its members, order and multiplicities are stated by the three lemmas below |
| Seqs.FilterMembers | App.tsx:23 | an element is kept by `filter` exactly when it is in the input and passes the callback |
| Seqs.FilterIsSubsequence | App.tsx:23 | `filter` keeps the input order: its result is a subsequence of the input |
| Seqs.FilterMultiset | App.tsx:23 | `filter` never duplicates: its result is a sub-multiset of the input |
| Seqs.FilterFilter | App.tsx:22-39 | filtering twice in a row is filtering once by both callbacks |
| Seqs.FilterAll | App.tsx:22-39 | a filter whose callback accepts every element returns the input unchanged |
| App.CategoryOk | App.tsx:22-23 | the category test, with `All` restricting nothing; its effect on the output is stated by `App.PipelineMembers` |
| App.StoreOk | App.tsx:27-28 | the store test, with `'All'` restricting nothing; its effect on the output is stated by `App.PipelineMembers` |
| App.Mentions | App.tsx:34-38 | the lower-cased query occurs in the lower-cased title, store or category; its effect on the output is stated by `App.PipelineMembers` |
| App.QueryOk | App.tsx:32-38 | the text test, skipped when the query is empty; its effect on the output is stated by `App.PipelineMembers` |
| App.Selected | App.tsx:21-39 | all three tests together; `App.PipelineSelects` proves the shown deals are exactly the selected input deals |
| App.FilterStages | App.tsx:21-39 | the three stages in source order never lengthen the list; `App.FilterStagesSelect` proves them equal to one filter by `Selected` |
| App.FilterStagesSelect | App.tsx:21-39 | the three filter stages, each skipped at its default, keep exactly the deals passing all active filters, in input order |
| App.Key | App.tsx:43-58 | the value each comparator orders by; `App.Compare` proves each comparator's sign is the sign of a key difference |
| App.Compare | App.tsx:43-58 | the four comparators; each one's sign is the sign of a key difference, so each is a consistent ordering |
| App.Insert | App.tsx:42-59 | one stable insertion step adds exactly one element; its order, multiset and tie order are stated by `App.InsertSorted`, `App.InsertPermutes` and `App.InsertStable` |
| App.SortAll | App.tsx:42-59 | `deals.sort(comparator)` keeps the length; `App.SortAllSorted`, `App.SortAllPermutes` and `App.SortAllStable` state that it orders, permutes and is stable |
| App.InsertPermutes | App.tsx:42-59 | one insertion step adds exactly the inserted deal |
| App.SortAllPermutes | App.tsx:42-59 | the sort is a permutation of its input |
| App.SortAllMembers | App.tsx:42-59 | the sort neither adds nor drops a deal |
| App.InsertSorted | App.tsx:42-59 | inserting into a sorted list keeps it sorted |
| App.SortAllSorted | App.tsx:42-59 | the sort result is ordered by the option's key |
| App.InsertStable | App.tsx:42-59 | within every group of ties, inserting keeps the group's order and puts the new deal at its end |
| App.SortAllStable | App.tsx:42-59 | the sort is stable under every option: deals with equal keys (equal price, equal discount, equal loot flag) keep their input order |
| App.InsertLootDeal | App.tsx:54-58 | a loot deal inserted into a loot-first list lands after the loot deals and before the rest |
| App.InsertOtherDeal | App.tsx:54-58 | under relevance, inserting a non-loot deal into any list appends it at the end |
| App.RelevanceIsLootFirst | App.tsx:52-58 | the relevance sort is the stable partition: loot deals in input order, then the other deals in input order |
| App.InsertPosition | App.tsx:42-59 | the stable insertion puts the new deal just after the last deal that does not rank above it |
| App.InsertInPlace | App.tsx:42-59 | shifting one array slot into place yields the specified insertion and leaves later slots alone |
| App.SortInPlace | App.tsx:42-59 | the in-place sort of an array leaves in it the specified stable sort of its old contents |
| App.Pipeline | App.tsx:18-62 | the memo's value, filter then sort, never longer than the input; its members, order and stability are stated by the `App.Pipeline…` lemmas |
| App.FilteredDeals | App.tsx:18-62 | the memo returns the specified pipeline result, a permutation of the deals passing the filters, ordered by the option |
| App.PipelineIsSelection | App.tsx:19-61 | the result is a reordering of a subsequence of the input: nothing invented or duplicated |
| App.PipelineMembers | App.tsx:22-39 | a deal is shown exactly when it is an input deal with the selected category, the selected store and the query in its title, store or category, each test skipped at its default |
| App.PipelineSelects | App.tsx:22-39 | the same soundness and completeness, with the filters folded into `Selected` |
| App.PipelineOrdered | App.tsx:43-50 | low-to-high gives non-decreasing deal prices, high-to-low non-increasing prices, discount non-increasing discounts |
| App.PipelineStable | App.tsx:18-62 | shown deals that tie under the sort option appear in the order of the input list |
| App.PipelineRelevance | App.tsx:52-58 | under relevance the filtered loot deals come first, then the other filtered deals, each group in input order; no loot deal follows a non-loot one |
| App.ResetShowsEverything | App.tsx:18-62 | with every selector at its default the result is the whole input, sorted by the current option |
| App.Storefront.constructor | App.tsx:13-16 | the initial selectors: category `All`, store `'All'`, relevance, empty query |
| App.Storefront.ResetFilters | App.tsx:100-104 | the reset button restores the three filters and keeps the sort option |
| App.Storefront.Shown | App.tsx:18-62 | the deals on screen are the pipeline over the current selectors, sorted by the current option |
| Dashboard.NumberOf | components/Admin/Dashboard.tsx:36 | `Number` of a price box, with a blank box reading as 0; used by `Dashboard.Accepts` and `Dashboard.Record` |
| Dashboard.Accepts | components/Admin/Dashboard.tsx:36 | the price check passes only when the deal price is below the original price, so an accepted original price is positive and the discount's division is defined |
| Dashboard.Discount | components/Admin/Dashboard.tsx:42 | the rounded percentage lies in 0..100 and is the whole number nearest the exact saving, halves rounding up |
| Dashboard.RoundedQuotient | components/Admin/Dashboard.tsx:42 | the integer quotient used for `Math.round` is within half a unit of the exact saving |
| Dashboard.DiscountExample | components/Admin/Dashboard.tsx:42 | 1000 down to 400 is 60% off |
| Dashboard.InitialForm | components/Admin/Dashboard.tsx:16-23 | the form starts empty, on Amazon and Electronics, loot unticked |
| Dashboard.Record | components/Admin/Dashboard.tsx:44-56 | the written document carries the form's fields and numeric prices, the formula's discount, `createdAt` now and expiry one day later |
| Dashboard.Cleared | components/Admin/Dashboard.tsx:58-59 | after a write, text and price boxes are empty and loot is unticked while store and category stay; a cleared form fails the price check |
| Dashboard.Dashboard.constructor | components/Admin/Dashboard.tsx:10-23 | the initial dashboard state, with nothing written |
| Dashboard.Dashboard.HandleSubmit | components/Admin/Dashboard.tsx:34-68 | rejects exactly when the deal price is not below the original, changing nothing; otherwise `loading` ends false; a write that succeeds logs `Record(form, now)`, clears the form and sets `success`; a failing write logs nothing and keeps the form; every logged document stays well formed |
| Dashboard.InventoryMatches | components/Admin/Dashboard.tsx:76-79 | the inventory callback: the lower-cased search text in the lower-cased title or store; `Dashboard.InventoryMembers` proves the list is exactly the matching deals |
| Dashboard.FilteredInventory | components/Admin/Dashboard.tsx:76-79 | the search result is no longer than the deal list |
| Dashboard.InventoryMembers | components/Admin/Dashboard.tsx:76-79 | a deal is listed exactly when its lower-cased title or store contains the lower-cased search text, and the list is a subsequence of the deals |
| Dashboard.EmptySearchListsAll | components/Admin/Dashboard.tsx:76-79 | an empty search box lists every deal |
| Dashboard.TotalDeals | components/Admin/Dashboard.tsx:115 | the "Total Deals" card, the length of the deal list; `Dashboard.LootActiveCounts` bounds the loot card by it |
| Dashboard.LootActive | components/Admin/Dashboard.tsx:124 | the "Loot Active" card never exceeds the number of deals; `Dashboard.LootActiveCounts` proves it counts the loot positions |
| Dashboard.LootActiveCounts | components/Admin/Dashboard.tsx:115-124 | the loot card counts the positions holding loot deals and never exceeds the total card |
| Hero.MsUntilEndOfDay | components/Hero.tsx:10-14 | the time left runs from the current instant to 23:59:59.999 and is under one day |
| Hero.CalculateTime | components/Hero.tsx:16-20 | hours lie in 0..23, minutes and seconds in 0..59 |
| Hero.CalculateTimeRecombines | components/Hero.tsx:14-20 | the fields recombine to the whole seconds left; within one day `hours*3600 + minutes*60 + seconds` is exactly that |
| Hero.DecimalString | components/Hero.tsx:55-59 | `String(n)` is a non-empty digit string without leading zeros, one digit below 10 and two below 100 |
| Hero.DecimalRoundTrip | components/Hero.tsx:55-59 | reading `String(n)` back as a decimal gives `n` |
| Hero.PadStart | components/Hero.tsx:55-59 | `padStart` reaches the width, ends with the original string and fills the front with the fill character |
| Hero.LeadingZeros | components/Hero.tsx:55-59 | leading zeros do not change a digit string's value |
| Hero.Display | components/Hero.tsx:55-59 | `String(n).padStart(2, '0')` is at least two characters long; its exact length, digits and value are stated by the three lemmas below |
| Hero.DisplayLength | components/Hero.tsx:55-59 | a displayed field is at least two characters long, and exactly two below 100 |
| Hero.DisplayDigits | components/Hero.tsx:55-59 | a displayed field is all digits |
| Hero.DisplayValue | components/Hero.tsx:55-59 | a displayed field reads back as its number |
| Constants.MockDeals | constants.tsx:4-125 | the catalogue holds eight deals |
| Constants.SeedPricesAgree | constants.tsx:9-11 | every seed has a deal price below its original price, and its stored percentage is what the admin formula computes |
| Constants.DiscountOfFirstSeed | constants.tsx:9-11 | 79900 down to 65999 is 17% off |
| Constants.SeedIds | constants.tsx:4-125 | the ids are "1" to "8" in order |
| Constants.SeedIdsDistinct | constants.tsx:4-125 | no two seeds share an id |
| Constants.SeedCategories | constants.tsx:4-125 | no seed has the `All` sentinel as its category |
| Constants.SeedLoot | constants.tsx:15-75 | the loot seeds are ids 1, 3 and 5; `LootActive` of the seeds is 3 of `TotalDeals` 8 |
| Constants.SeedRelevanceOrder | constants.tsx:4-125 | the first view of the storefront lists ids 1, 3, 5, then 2, 4, 6, 7, 8 |
| Constants.SeedElectronics | constants.tsx:12-117 | the Electronics tab under relevance lists ids 1, 2, 4, 8, loot deal 1 first |

## Left out

- Floating point: prices are whole, non-negative rupees. `Number()` of a non-numeric string (`NaN`), fractional prices and negative prices are not modelled. A blank price box reads as 0, as `Number('')` does.
- The browser's `required` checks on the form fields are not modelled. Only the handler's own price check is.
- `toLowerCase` covers ASCII letters only, with no Unicode case mapping.
- `expiryDate` is kept as a millisecond timestamp. The `toISOString` formatting is not modelled.
- `Date.now()` is the parameter `now`. The handler's two `Date.now()` calls are taken to read the same instant.
- The seed catalogue's load time is likewise the parameter `now`.
- The Hero countdown takes `msOfDay`, the current instant's offset into the local day, as a parameter. Clocks, time zones and daylight-saving changes are not modelled.
- The `setInterval` refresh and the `timeLeft` state update are not modelled. The `:` separators between the three fields are fixed markup and are not modelled.
- Firestore is not modelled: the `onSnapshot` subscription that fills the dashboard's deal list, `deleteDoc` and `handleDelete`, and `signOut`. The `addDoc` write is the outcome parameter `writeSucceeds`, plus the ghost log `published`.
- `alert`, `confirm`, `console.error` and the `setTimeout` that clears `success` after three seconds are not modelled.
- Rendering is not modelled: the header, footer, filter bar, deal cards, login form and chat assistant. The Gemini and Firebase services, the FastAPI server and the DOM bootstrap are not part of this model either.
- The dashboard's category select offers every category except `All`. The model's form accepts any `Category`.
- Dashboard.Discount: computes `Math.round` of the exact rational saving. The source divides and multiplies in IEEE doubles, and when the exact saving is a half percent the double can land just below the half and round down. For an original price of 40 and a deal price of 17 the exact saving is 57.5%, which the model rounds to 58, while `((40 - 17) / 40) * 100` is 57.49999999999999 in doubles and `Math.round` stores 57. Other half-way pairs, such as 200 and 171, diverge the same way. Double arithmetic is not modelled.
- Dashboard.Dashboard.HandleSubmit: the `await` on `addDoc` is collapsed into one atomic step. In the source the form inputs stay editable while the write is pending, since only the submit button is disabled. A store or category chosen during the write survives the reset, whereas the model's contract keeps the store and category that were submitted. Edits made while the write is pending, and other interleavings with the component's state, are not modelled.
