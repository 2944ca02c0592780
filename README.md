# Istanbul neighborhood recommender: constrained retrieval, modelled in Dafny

The system recommends Istanbul neighborhoods (mahalle, inside a district, ilçe) to someone
looking for a flat. A language model turns the user's request into a preferences record. The
`NeighborhoodAgent` then works in two steps:

1. A fixed chain of per-row threshold tests narrows the catalog: budget, parks, schools,
   restaurants, cafes, green index, population, stations, casualties, severely and heavily
   damaged buildings. Each active test adds one trace entry.
2. A vector index is queried with the free-text part of the request. The ranked oversample
   is walked, and a hit is kept when its `mahalle` and its `ilce` both occur in the candidate
   lists. The walk stops at `n_results`. If the index call throws, the top candidates by
   society welfare index are returned instead.

Each recommendation may carry a rent annotation, and `explain_match` gives it an ordered,
tiered list of reasons. `main_v4.py` is an older agent with seven tests, no station
column and four kinds of reason. `utils/vector_db_creation.py` builds the index: the
embedding text and metadata of each row, duplicate-id numbering, and batches of 50.

The model is split as follows:

- `DataModel`: table cells, columns and index metadata.
- `Prefs`: the preferences record.
- `Constraints`: the test chain.
- `Retrieval`: the post-filter walk, the rent annotation and the reason tiers.
- `Ranking`: pandas `nlargest`.
- `Agent` and `AgentV4`: the two agent classes. Their methods are proved against the
  specification functions of the modules above.
- `IndexText`, `IndexBuild` and `Batching`: the index builder.
- `IndexReads`: what the agent's explanation makes of metadata that came from the index.

Behaviours of the code that the model keeps as written:

- **Per-column membership.** The post-filter checks `mahalle` and `ilce` each on its own
  (`Retrieval.AdmittedPerColumn`). A hit from a district that has another candidate with
  the same name passes. `Agent.SemanticBudgetCanGoNegative` exhibits such a hit, which ends
  up with a negative `budget_remaining`.
- **The fallback fires only on an exception.** Zero post-filter matches give `[]`
  (`Agent.SemanticOutcome`).
- **Truthiness.** Python truthiness is modelled literally: a threshold of 0 or `None`
  disables a `min_*` test, whereas the earthquake maxima are active whenever they are not
  `None`. A NaN cell fails every active test on it.
- **Quake claims from the index.** Index metadata has no `can_kaybi_sayisi`, and
  `explain_match` reads a missing value as 0. Every neighborhood served from the index is
  therefore called "excellent" on earthquake safety when the user asks about earthquakes
  (`IndexReads.IndexedQuakeReasons`). The same holds for every fallback recommendation
  (`Agent.FallbackExplanation`).
- **Transport reasons from the index.** Index metadata has no `total_stations` either, so
  the transport reason appears only for a negative threshold (`IndexReads.IndexedTransportReasons`).
- **NaN welfare in the fallback.** `nlargest` returns the rows that have a welfare index
  first, by descending welfare. When fewer than `n` rows have one, it fills up with the rows
  whose welfare index is NaN, in table order (`Ranking.NLargestUnrankedTail`).
- **Id collisions.** Duplicate-id suffixing keeps ids distinct within one base id, but it
  can collide with another base id (`IndexBuild.DocIdsCanCollide`).
- **The v4 fallback metadata** holds ten fields: the two names and eight numbers
  (main_v4.py:270-281). The model follows the code.

Floating-point values are `real`. A missing or null numeric cell is the `NaN` value of `Num`, and
every comparison with it is false. `int(x)` is truncation toward zero (`DataModel.Trunc`).
The vector index is a function parameter from the query to `IndexResult`. The float-to-text
formatting that the embedding text uses is a `render` parameter.

## Model

| member | source | states |
|---|---|---|
| DataModel.Trunc | main.py:399 | `int(x)` truncates toward zero: within one below (or above, for negatives) the value |
| DataModel.BaseId | main.py:47-48 | the id is `ilce + "_" + mahalle` with every space turned into `_`: no space is left, the `_` sits right after the district, and the length is unchanged |
| Text.ReplaceChar | utils/vector_db_creation.py:200 | `str.replace` of one character: same length, and each position replaced exactly when it held the old character |
| Prefs.QueryText | main.py:273 | the query text is the user's text when non-empty, else "good neighborhood", and never empty |
| Constraints.Kinds | main.py:189-239 | the kinds of a trace, position by position |
| Constraints.ActivationRules | main.py:186-239 | a non-earthquake test is active exactly when its field is truthy; an earthquake maximum is active exactly when it is not None, with that threshold |
| Constraints.EarthquakeSafeAloneIsNoop | main.py:227-231 | `earthquake_safe` without maxima adds no test and no trace entry |
| Constraints.FalsyThresholdIsNoop | main.py:195-197 | a falsy `min_parks` gives the same rows and trace as no `min_parks` |
| Constraints.ZeroEarthquakeMaximumEnforced | main.py:229-239 | an earthquake maximum of 0 is enforced: every surviving row has that value at most 0 |
| Constraints.NaNFailsActiveTest | main.py:230 | a row whose cell for an active test is NaN never survives |
| Constraints.CandidatesWithinBudget | main.py:189-191 | with a truthy budget every surviving row has a rent rate, and rate times size is within the budget |
| Constraints.CandidatesExact | main.py:182-241 | a row survives exactly when it is in the table and passes every active test of the chain, and the survivors keep table order |
| Constraints.CandidatesStep | main.py:189-239 | each active test narrows the previous result by its own predicate, and an inactive one leaves it unchanged |
| Constraints.NoTestsKeepAll | main.py:182-183 | before any test the result is the whole table and the trace is empty |
| Constraints.CandidatesOrderIndependent | main.py:189-239 | the rows that survive depend only on the set of tests, not their order |
| Constraints.TraceContents | main.py:189-239 | the trace has one entry per active test with its threshold, in chain order, and nothing else |
| Constraints.TraceStep | main.py:189-239 | each test appends its trace entry exactly when it is active |
| Constraints.Advance | main.py:189-239 | one step of the chain: an active test narrows and appends to the trace, and an inactive one changes neither |
| Constraints.KindsAppend | main.py:189-239 | the kinds of two traces appended are the kinds of each, appended |
| Constraints.EmptyPreferencesKeepAll | main.py:160-178 | the empty preferences keep every row and leave no trace |
| Constraints.ThresholdsDecide | main.py:186-239 | preferences with the same thresholds and size give the same rows and trace |
| Constraints.MoreTestsNarrower | main.py:189-239 | running more tests gives a sub-sequence of the result of fewer |
| Constraints.MainChainRefinesV4 | main_v4.py:126-167 | the eleven-test chain keeps a sub-sequence of what the seven-test chain keeps, and the same rows when stations and the earthquake maxima are off |
| Constraints.SameCandidatesWhenExtraOff | main_v4.py:126-167 | with stations and the earthquake maxima off, both chains keep the same rows |
| Retrieval.OversampleSize | main.py:280 | the oversample is the catalog size capped at 50 |
| Retrieval.Quota | main.py:296-297 | the walk stops after `n_results` items, and always takes at least the first admitted hit |
| Retrieval.PostFilter | main.py:284-297 | the loop with its early `break` keeps exactly the admitted hits, in rank order, up to the quota |
| Retrieval.AdmittedHitsAppend | main.py:286-294 | admitting distributes over appended rankings |
| Retrieval.AdmittedHitsShape | main.py:286-294 | the admitted hits are a sub-sequence of the ranking, holding exactly the ranked hits that pass |
| Retrieval.PostFilterShape | main.py:284-297 | the kept hits are an order-preserving sub-sequence of admitted hits, at most the quota, and all admitted hits when fewer |
| Retrieval.AdmittedPerColumn | main.py:291 | a hit passes exactly when some candidate has its mahalle and some candidate, possibly another, has its ilce |
| Retrieval.AnnotateRentFields | main.py:316-321 | the annotation in closed form: present exactly when the budget is truthy, rent = rate times size (80 when falsy), remaining = budget - rent, NaN for a NaN rate |
| Retrieval.Annotate | main.py:316-321 | the finance fields exist exactly when the budget is truthy, with `monthly_rent = rate * size` and `budget_remaining = budget - monthly_rent` |
| Retrieval.ParseResults | main.py:302-323 | the parse loop gives one recommendation per kept hit, in order |
| Retrieval.BudgetReasons | main.py:377-381 | above 5000 is "well under budget", above 0 is "within budget", and 0, a negative, NaN or no annotation gives nothing |
| Retrieval.TransportReasons | main.py:396-399 | a transport reason exactly when the threshold is truthy and the total, read with default 0, meets it, naming the truncated total |
| Retrieval.QuakeReasons | main.py:402-409 | with an earthquake concern: casualties 0 is excellent, up to 5 good, up to 10 moderate, above 10 or NaN nothing, and a missing value reads as 0; no concern gives nothing |
| Ranking.Insert | main.py:331 | insertion keeps a strictly sorted list sorted and adds the one element |
| Ranking.Sort | main.py:331 | the sorted ranking is a strictly sorted arrangement of the same elements |
| Ranking.EligibleFrom | main.py:331 | the ranked rows are exactly the rows with a welfare value, in table order |
| Ranking.Eligible | main.py:331 | no row is ranked twice |
| Ranking.PrefixRanksFirst | main.py:331 | every element of the chosen prefix ranks before every element left out |
| Ranking.UnrankedFrom | main.py:331 | the positions whose welfare index is NaN, all of them, in table order |
| Ranking.UnrankedCount | main.py:331 | every position is either ranked or NaN |
| Ranking.TopPositions | main.py:331 | every returned position is a position of the table |
| Ranking.NLargestSize | main.py:331 | min(n, number of rows) positions are returned: the min(n, number of valued rows) ranked positions first, then NaN positions in table order, which appear only once every ranked position is taken |
| Ranking.PositionsValued | main.py:331 | a returned position has a welfare index exactly when it is among the first (number of valued rows) of the answer |
| Ranking.NLargestOrder | main.py:331 | `nlargest` returns min(n, number of rows) rows; the first min(n, number of valued rows) are the valued rows by descending welfare, ties in table order |
| Ranking.NLargestUnrankedTail | main.py:331 | after the valued rows come the NaN-welfare rows in table order, and only once every valued row is taken |
| Ranking.NLargestShape | main.py:331 | on rows: min(n, number of rows) rows of the table, a row has a welfare index exactly when it is among the first (number of valued rows) |
| Ranking.NLargestDescending | main.py:331 | on rows: valued rows by descending welfare, and no NaN row before a valued one |
| Ranking.TopRankedRows | main.py:331 | each chosen entry points at a row with that welfare |
| Ranking.TopRankedSorted | main.py:331 | the chosen entries are by descending welfare, ties by table position |
| Ranking.NLargestIsTopN | main.py:331 | every row with a welfare value that is left out ranks below every chosen row |
| Agent.DropUnknownExact | main.py:30 | a row survives the clean-up exactly when it is in the file and its name is not "Unknown", in file order |
| Agent.DropUnknownAppend | main.py:30 | the clean-up distributes over appended tables |
| Agent.DeriveKeepsColumns | main.py:37-48 | the derivation changes no column other than `total_stations` and the id |
| Agent.DeriveSpec | main.py:37-48 | `total_stations` is bus + train + transit with nulls counted as 0, and the id is the file's or the derived base id |
| Agent.LoadFrom | main.py:26-48 | every loaded row derives from a file row not named "Unknown" |
| Agent.LoadKeeps | main.py:26-48 | every file row not named "Unknown" is loaded |
| Agent.LoadAt | main.py:26-48 | the i-th loaded row is the derivation of the i-th kept file row |
| Agent.LoadDropsUnknown | main.py:30 | no loaded row is named "Unknown" |
| Agent.LoadStationTotals | main.py:37-41 | every loaded row has `total_stations` = bus + train + transit with nulls as 0 |
| Agent.LoadIds | main.py:46-48 | without an id column every loaded row gets the base id of its names |
| Agent.NeighborhoodAgent.constructor | main.py:26-48 | the agent's table is the cleaned, derived catalog |
| Agent.NeighborhoodAgent.FilterByConstraints | main.py:180-241 | the loop returns the narrowed rows and the trace of the eleven-test chain, leaving the table unchanged |
| Agent.MaskStep | main.py:189-239 | one test of the loop moves rows and trace from one chain prefix to the next |
| Agent.NeighborhoodAgent.SearchWithConstraints | main.py:243-332 | no query when no candidate survives; otherwise one query for the text with the oversample, and the post-filtered or fallback outcome of its answer |
| Agent.NeighborhoodAgent.DataframeToRecommendations | main.py:334-369 | one fallback recommendation per row, in order |
| Agent.NeighborhoodAgent.ExplainMatch | main.py:371-411 | the reasons the explanation function gives, or the missing key it raises on |
| Agent.BudgetStep | main.py:377-381 | the budget reason of the recommendation |
| Agent.TransportStep | main.py:396-399 | appends the transport reason |
| Agent.QuakeStep | main.py:402-409 | appends the earthquake reason |
| Agent.ExplainOrdered | main.py:371-411 | reasons come in the order budget, green, schools, parks, transport, earthquake, at most one of each |
| Agent.StepGroups | main.py:377-409 | each step contributes at most one reason, of its own category |
| Agent.OrderedAppend | main.py:371-411 | appending a later category keeps the order |
| Agent.HasCategoryAppend | main.py:371-411 | a category occurs in appended reasons exactly when it occurs in either part |
| Agent.HasCategoryGroup | main.py:371-411 | a one-category group holds a category exactly when it is its own and non-empty |
| Agent.HasCategoryOfGroups | main.py:371-411 | a category occurs in the six groups exactly when its own group is non-empty |
| Agent.ExplainReasonsIff | main.py:377-409 | each kind of reason occurs exactly when its preference is truthy (or the earthquake concern holds) and the value, read with default 0, meets it |
| Agent.ExplainReasonsJustified | main.py:371-411 | every reason given is justified by the preferences and the metadata |
| Agent.ExplainRaisesIff | main.py:384-393 | the f-string raises on a missing green, school or park key exactly when the default 0 meets a truthy (negative) threshold, the first such test in order deciding |
| Agent.QuakeClaimWithoutCasualtyData | main.py:402-405 | without a casualty figure an earthquake concern always ends in "excellent earthquake safety" |
| Agent.FallbackExplanation | main.py:343-358 | a fallback recommendation never raises when explained, and under an earthquake concern it is called excellent |
| Agent.FallbackOutcome | main.py:325-332 | on an index error the agent returns min(n, number of candidates) fallback recommendations of candidates, each with similarity 0.5: first those with a welfare index by descending welfare, then those without |
| Agent.FallbackOutcomeRent | main.py:362-365 | each fallback recommendation has rent fields exactly when the budget is truthy: rent = rate times size (80 when falsy), remaining = budget - rent, both NaN for a NaN rate |
| Agent.FallbackRecWithinBudget | main.py:362-365 | a candidate that passed the budget test has a non-negative `budget_remaining` |
| Agent.NLargestRowsFromInput | main.py:331 | `nlargest` returns rows of its input |
| Agent.FallbackWithinBudget | main.py:325-332 | with a truthy budget every fallback recommendation is annotated with a non-negative `budget_remaining` |
| Agent.SemanticOutcome | main.py:276-326 | on a ranking, the outcome is the parsed kept hits: at most the quota of them, in rank order, each with similarity 1 - distance and the hit's metadata, matching some candidate mahalle and some candidate ilce; no admitted hit gives `[]` |
| Agent.SemanticOutcomeRent | main.py:315-321 | each semantic recommendation has rent fields exactly when the budget is truthy, for the metadata's rate read with default 0: rent = rate times size (80 when falsy), remaining = budget - rent |
| Agent.NoUnknownFallback | main.py:328-332 | a table without "Unknown" rows gives no "Unknown" fallback recommendation |
| Agent.NoUnknownSemantic | main.py:286-326 | a table without "Unknown" rows gives no "Unknown" semantic recommendation |
| Agent.NoUnknownRecommended | main.py:243-332 | no recommendation is named "Unknown", whatever the index returns |
| Agent.SemanticBudgetCanGoNegative | main.py:286-321 | a hit whose names match two different candidates passes and is recommended over budget |
| AgentV4.LoadV4WithIds | main_v4.py:29-40 | with an id column the v4 load is exactly the clean-up |
| AgentV4.LoadsAgree | main_v4.py:20-40 | the v4 load and the current load have the same rows, differing only in the station columns |
| AgentV4.DeriveAgrees | main_v4.py:38-40 | the two derivations agree except for the station columns |
| AgentV4.NeighborhoodAgent.constructor | main_v4.py:25-40 | the agent's table is the cleaned catalog with ids |
| AgentV4.NeighborhoodAgent.FilterByConstraints | main_v4.py:126-167 | the rows and trace of the seven-test chain |
| AgentV4.NeighborhoodAgent.SearchWithConstraints | main_v4.py:169-258 | no query without candidates; otherwise one query and the post-filtered or fallback outcome |
| AgentV4.NeighborhoodAgent.DataframeToRecommendations | main_v4.py:260-291 | one v4 fallback recommendation per row, in order |
| AgentV4.NeighborhoodAgent.ExplainMatch | main_v4.py:293-317 | the v4 explanation: reasons, or the missing key |
| AgentV4.FallbackRecsV4 | main_v4.py:260-291 | one recommendation per row |
| AgentV4.V4TestsIgnoreStations | main_v4.py:126-167 | the seven tests never read a station column |
| AgentV4.ChainsAgree | main_v4.py:126-167 | with the extra tests off a row passes both chains alike |
| AgentV4.CandidatesAgree | main_v4.py:126-167 | with the extra tests off both agents keep corresponding rows |
| AgentV4.EligibleAgree | main_v4.py:257 | rows with the same welfare values rank alike |
| AgentV4.SemanticOutcomesAgree | main_v4.py:169-252 | with the extra tests off both agents give the same search outcome for a ranking |
| AgentV4.FallbackOutcomesAgree | main_v4.py:254-258 | with the extra tests off both fallbacks pick corresponding rows, the v4 one without station metadata |
| AgentV4.UnrankedAgree | main_v4.py:257 | rows with the same welfare values have the same NaN positions |
| AgentV4.NLargestAgree | main_v4.py:257 | `nlargest` picks corresponding rows |
| AgentV4.FallbackRecsAgree | main_v4.py:260-291 | the two fallback conversions agree row by row apart from station metadata |
| AgentV4.FallbackMetadataNarrower | main_v4.py:270-281 | the v4 fallback metadata is the current one without the four station keys |
| AgentV4.FallbackMetadataKeys | main_v4.py:270-281 | its keys are the current keys minus the station keys |
| AgentV4.FallbackCellsAgree | main_v4.py:270-281 | rows that differ only in stations have the same cells behind the v4 keys |
| AgentV4.FallbackMetadataValues | main_v4.py:270-281 | with the same cells, the shared keys hold the same values |
| AgentV4.FallbackColumnsV4 | main_v4.py:270-281 | each v4 key holds the cell of its column |
| AgentV4.FallbackColumns | main.py:344-358 | each non-station key of the current fallback holds the cell of its column |
| AgentV4.ExplanationsAgree | main_v4.py:293-317 | the v4 and current explanations raise alike, and the current one adds only transport and earthquake reasons at the end |
| AgentV4.ExplainV4OrderedAndJustified | main_v4.py:293-317 | reasons come in the order budget, green, schools, parks, each justified |
| AgentV4.FallbackExplanationV4 | main_v4.py:270-281 | a v4 fallback recommendation never raises when explained |
| IndexText.CreateTextForEmbedding | utils/vector_db_creation.py:55-112 | builds exactly the joined parts |
| IndexText.AddNumberPart | utils/vector_db_creation.py:76-86 | appends a number part exactly when the cell is not null |
| IndexText.CollectAmenities | utils/vector_db_creation.py:89-95 | the amenity loop gives the amenity list |
| IndexText.AmenitiesExact | utils/vector_db_creation.py:93-95 | an amenity is listed exactly when its place type has a positive count, as "count type-with-spaces s" |
| IndexText.AmenitiesSound | utils/vector_db_creation.py:93-95 | every listed amenity comes from a place type with a positive count |
| IndexText.AmenitiesComplete | utils/vector_db_creation.py:93-95 | every place type with a positive count is listed |
| IndexText.AmenitiesPresent | utils/vector_db_creation.py:97 | there is an amenity part exactly when some place type has a positive count |
| IndexText.AmenityPartPlaced | utils/vector_db_creation.py:97-98 | the amenity part follows the rent and index parts |
| IndexText.EmbeddingTextLayout | utils/vector_db_creation.py:66-112 | parts are joined with a bar separator, the description part comes first when present, and the neighborhood and location parts are always there |
| IndexText.HeadPartsPrefix | utils/vector_db_creation.py:66-86 | the head parts open the part list |
| IndexText.CreateMetadata | utils/vector_db_creation.py:114-153 | builds exactly the metadata of the row |
| IndexText.MetadataValuesExact | utils/vector_db_creation.py:124-151 | latitude and longitude are always there, a mapped key exactly when its column is present, and no other keys |
| IndexText.MetadataContents | utils/vector_db_creation.py:124-153 | the metadata holds the names, latitude, longitude, each of the 14 mapped keys exactly when its column is present, and nothing else |
| IndexText.NumericFieldsKeys | utils/vector_db_creation.py:132-147 | the 14 mapped keys are distinct and none is an earthquake or station key |
| IndexText.MetadataLacksQuakeAndStations | utils/vector_db_creation.py:124-153 | the metadata has no casualty or station key, and every mapped value is a number |
| IndexReads.IndexedQuakeReasons | main.py:402-409 | from the index, an earthquake concern always earns "excellent earthquake safety" |
| IndexReads.IndexedTransportReasons | main.py:396-399 | from the index, a transport reason appears only for a negative threshold, naming 0 stations |
| IndexBuild.PrepareRecords | utils/vector_db_creation.py:185-210 | the loop gives row-aligned documents, metadata and ids, each the function of its row |
| IndexBuild.AddDocument | utils/vector_db_creation.py:192-193 | appends the row's embedding text |
| IndexBuild.AddMetadata | utils/vector_db_creation.py:196-197 | appends the row's metadata |
| IndexBuild.AddId | utils/vector_db_creation.py:199-210 | appends the row's numbered id and keeps the counter |
| IndexBuild.NextId | utils/vector_db_creation.py:203-208 | the counter records one less than each base's count, and the id is the base, or the base with `_k` for its k-th repeat |
| IndexBuild.Documents | utils/vector_db_creation.py:190-193 | one document per row |
| IndexBuild.Metadatas | utils/vector_db_creation.py:190-197 | one metadata per row |
| IndexBuild.DocIds | utils/vector_db_creation.py:190-210 | one id per row |
| IndexBuild.DocIdKeepsBase | utils/vector_db_creation.py:203-208 | a first occurrence keeps its base id, and every id begins with its base |
| IndexBuild.DocIdsDistinctWithinBase | utils/vector_db_creation.py:203-208 | rows with the same base id get different ids |
| IndexBuild.DocIdsCanCollide | utils/vector_db_creation.py:200-208 | a repeat of one base can take the id of another base |
| IndexBuild.CreateVectorDb | utils/vector_db_creation.py:185-229 | batches of 1 to 50 aligned records whose concatenation is the documents, metadata and ids of all rows |
| Batching.Slice | utils/vector_db_creation.py:220-222 | Python slicing clamped to the length |
| Batching.MakeBatches | utils/vector_db_creation.py:218-228 | ceil(len/50) batches, the b-th starting at 50b, of size 1 to 50, whose concatenation is each full list |
| Batching.BatchesCover | utils/vector_db_creation.py:219-222 | batches at every 50th position cover the lists exactly |
| Batching.FlattenSlices | utils/vector_db_creation.py:219-222 | consecutive 50-slices concatenate to the prefix they span |

## Left out

- `extract_preferences_with_llm`: a language-model call and parsing of its output; preferences are an input record.
- Malformed index answers: in both agents the `try` also covers the post-filter walk and the parse (main.py:276-323, main_v4.py:202-252), so a hit whose metadata lacks `mahalle` or `ilce` would raise and send the agent to the fallback. Hits are always well-formed in the model, so the fallback is taken only when the index call itself fails (`IndexError`).
- The vector index (ChromaDB with SentenceTransformer embeddings): `collection.query` is a function parameter, `collection.add` is the batches `IndexBuild.CreateVectorDb` returns, and `create_collection`, `delete_collection`, `get_collection`, `count` and `test_query` are left out as foreign calls.
- `process_query`, `main`, the prints, and the HTTP layer in api_endpoint_v2.py: printing, input loops and serialisation.
- Trace entries are kept as (test, threshold) pairs, not as the formatted strings.
- The `estimated_rent` column that the budget test adds to its copy of the table: only the test it feeds is modelled.
- Reason messages are kept as variants with their numbers, not as formatted strings.
- IndexText.CreateTextForEmbedding: number-to-text formatting is the `render` parameter, except the `int(...)` counts, which are written out.
- Reading a missing column as NaN: pandas raises `KeyError` for a column absent from the whole file, which the model does not distinguish from a null cell.
- The building parts of the embedding text read `1980-2000_arasi` and `2000_sonrasi` only when `1980_oncesi` is present, and their nulls are rendered by `render`. The earthquake part's second figure is handled the same way.
- Similarity and distances are reals; floating-point rounding is not modelled.
- Null names: `Mahalle` and `İlçe` are taken as non-null strings. In pandas a null `Mahalle` passes the `!= 'Unknown'` test (main.py:30) and then gets a NaN `Mahalle_ID` (main.py:47-48), where the model builds a base id. The index stores such a name as the text `nan` (utils/vector_db_creation.py:125), so the post-filter's `in` test (main.py:291) never admits that row, while the model's would.
