# Otherworld Codex card browser, modelled in Dafny

Otherworld Codex is a browser for the encounter cards of a card game's
campaigns. This project models its core in Dafny and proves properties of
that model.

**The card browser page**
- Cards are filtered by five facets: campaign, scenario, encounter set, trait and type.
  - Inside one facet, any selected value may match.
  - Across facets, every facet must match.
- Stat filters are then applied to the result. Each one comes from a click on a cell of a heat-map table.
- Choosing a campaign, scenario or encounter set cascades to the facets below it.
  - Scenario and encounter selections that no longer fit are dropped.
  - Trait selections that no card in scope carries any more are dropped.
- All state lives in the page's query string. It is written on every change and read back on load and on history navigation.
- The statistics view shows:
  - pie and bar charts of card types, encounter sets and traits, sorted by count;
  - two heat-map tables of enemy and location stats, with one row per stat and one column per value.
- The campaign charts let a click on a bar select the cards behind it.

**The data layer**
- **Static site:** the card corpus is parsed and indexed by code, by encounter set and by linked back side. The site also builds a search index.
- **Ingestion scripts:** `get-card-data` decodes the card dump and groups it into encounter sets. `insert-data` and the Go seeder write cards, campaigns, scenarios and scenario links to the database.
- **Database client:** `getScenarioByCode` reshapes joined rows into a scenario with its campaigns, encounter sets and cards. `search` builds a prefix text query.
- **Go search endpoint:** parses `q` and `limit`, builds the text query, and copies the database rows into the response.
- **Small utilities:** the route builders, `cx` for class names and `css` for merging styles.

**How the program's constructs are modelled**
- A module-level map that the program fills in a loop is a method with a loop. Its postcondition ties the result to a function, and lemmas state what that function holds.
- The browser component's state (selections, view mode, stat filters, the pushed history) is a class.
- The charts component's drill-down selection is a class.
- JavaScript `Map`s, plain objects used as dictionaries and `URLSearchParams` are ordered association lists (`Assoc`). They keep insertion order, and `set` on an existing key keeps that key's position.
- The database and the file system are parameters:
  - the rows a query would return;
  - the calls a loader makes, as a list of `Call` values.

## Model

| member | source | states |
|---|---|---|
| CardFilters.StatOfName | src/data/filters.ts:44-52 | the inverted stat tables: a name found is that stat's name; a name not found is no stat's name |
| CardFilters.StatOfParam | src/data/filters.ts:50-52 | `PARAM_TO_STAT`: a parameter found is that stat's parameter; otherwise no stat uses it |
| CardFilters.StatNameInverse | src/data/filters.ts:44-48 | looking up a stat's own name gives that stat back |
| CardFilters.StatNameInjective | src/data/filters.ts:44-48 | two stats share a name exactly when they are the same stat |
| CardFilters.ParamNameInverse | src/data/filters.ts:44-52 | `PARAM_TO_STAT[STAT_PARAM_KEYS[s]] == s` for every stat |
| CardFilters.ParamNameInjective | src/data/filters.ts:44-48 | no two stats are written under the same query parameter |
| CardFilters.StatChipLabel | src/data/filters.ts:84-89 | every chip label ends in `" = "` followed by the filter value |
| CardFilters.ChipLabelInjective | src/data/filters.ts:84-89 | for the same value, the chips of two different stats never read the same |
| CardFilters.ValueSet | src/data/filters.ts:145 | the set of selected values holds exactly the values of the selection; it is empty only for an empty selection |
| CardFilters.KeepByValue | src/data/filters.ts:112 | the options kept are, in option order, exactly those whose value is in the set |
| CardFilters.ScenariosWithValue | src/data/filters.ts:157-159 | the scenario options kept are, in order, exactly those whose code is selected |
| CardFilters.ScenariosOfCampaigns | src/data/filters.ts:146 | the scenario options kept are, in order, exactly those of a selected campaign |
| CardFilters.FindScenario | src/data/filters.ts:264 | `find` returns an option with the given value, or none when no option has it |
| CardFilters.FindDistinctScenario | src/data/filters.ts:264 | with unique scenario codes, looking a scenario's code up finds that same scenario |
| CardFilters.FacetFiltered | src/data/filters.ts:347-357 | the cards kept are a subsequence of the input. A card is kept iff it has a truthy encounter code and meta data and meets every facet that has a selection |
| CardFilters.KeepStat | src/data/filters.ts:363-379 | one stat filter keeps, in order, exactly the cards of the stat's type that satisfy that stat's "?" rule or number rule |
| CardFilters.ApplyStatsSpec | src/data/filters.ts:359-380 | the stat-filter loop keeps, in order, exactly the cards that pass every entry naming a stat; other entries are skipped |
| CardFilters.FilterCards | src/data/filters.ts:335-383 | `filterCards` applies the facet filter, then the stat filters in entry order |
| CardFilters.FilterCardsSpec | src/data/filters.ts:335-383 | the cards `filterCards` keeps are a subsequence of the input. A card is kept iff it passes the facets and every known stat filter |
| CardFilters.FilteredCardsHaveMeta | src/data/filters.ts:348-350 | every card shown has a truthy encounter code and meta data |
| CardFilters.NoFiltersKeepsCatalogue | src/data/filters.ts:347-357 | with no selection and no stat filter, exactly the cards with an encounter code and meta data are shown |
| CardFilters.StatFilterType | src/data/filters.ts:360-364 | a stat filter keeps only cards of its stat's card type ("location" for the four location stats, "enemy" otherwise) |
| CardFilters.QuestionExcludesNumbers | src/data/filters.ts:365-378 | for the six stats with a separate "?" rule, a card kept by "?" is kept by no other value |
| CardFilters.VictoryQuestionOverlapsZero | src/data/filters.ts:369-377 | an enemy without victory points is kept both by "?" and by "0" (the victory filters do not separate them) |
| CardFilters.ComputeScenarioOptions | src/data/filters.ts:140-147 | all scenarios with no campaign selected; otherwise, in order, exactly the scenarios of the selected campaigns |
| CardFilters.ActiveScenarios | src/data/filters.ts:155-163 | none exactly when neither scenarios nor campaigns are selected. Otherwise the selected scenarios take precedence over the campaign's scenario options |
| CardFilters.EncounterCodesOf | src/data/filters.ts:164-165 | the union holds every encounter code of every active scenario and nothing else |
| CardFilters.ComputeValidEncounterCodes | src/data/filters.ts:149-167 | the loop's set is the union of the active scenarios' encounter codes; there is no restriction exactly when nothing is selected |
| CardFilters.ComputeEncounterOptions | src/data/filters.ts:169-175 | all encounters without a restriction; otherwise, in order, exactly those whose code is valid |
| CardFilters.AvailableTraits | src/data/filters.ts:188-196 | a trait is available iff some card with meta data in the selected scope carries it |
| CardFilters.CollectTraits | src/data/filters.ts:188-196 | the card loop collects exactly the available traits |
| CardFilters.AddTraits | src/data/filters.ts:195 | adding one card's traits leaves the set holding exactly the earlier traits and that card's traits |
| CardFilters.ComputeValidTraits | src/data/filters.ts:177-198 | no restriction exactly when no campaign, scenario or encounter is selected; otherwise the traits available in scope |
| CardFilters.ComputeTraitOptions | src/data/filters.ts:200-206 | all traits without a restriction; otherwise, in order, exactly the valid ones |
| CardFilters.AvailableTypes | src/data/filters.ts:220-228 | a type is available iff some card in scope has it |
| CardFilters.ComputeTypeOptions | src/data/filters.ts:208-230 | all types when nothing upstream is selected; otherwise, in order, exactly the types of cards in scope |
| CardFilters.PrunedTraits | src/data/filters.ts:232-251 | the selected traits are kept unchanged with no scope; otherwise, in order, exactly those still available in scope |
| CardFilters.PruneTraits | src/data/filters.ts:232-251 | the pruning loop computes the pruned traits |
| CardFilters.PruneMatchesOptions | src/data/filters.ts:200-251 | a selected trait survives pruning exactly when it is still offered among the trait options for the same scope |
| CardFilters.KeepScenariosInCampaigns | src/data/filters.ts:261-267 | the scenario selections kept are, in order, exactly those whose option belongs to a selected campaign |
| CardFilters.NarrowEncounters | src/data/filters.ts:279-284 | the encounter selection is unchanged without active scenarios; otherwise it keeps, in order, exactly the codes of the active scenarios |
| CardFilters.CascadeCampaignChange | src/data/filters.ts:253-290 | types are untouched, and selections only shrink in order. With campaigns selected, a scenario stays iff its campaign is selected. An encounter stays iff it belongs to an active scenario, or there are none. Under a non-empty scope a trait stays iff it is still available; with an empty scope traits are untouched |
| CardFilters.CascadeCampaignEncounters | src/data/filters.ts:268-284 | after a campaign change, every encounter still selected belongs to a scenario of a selected campaign |
| CardFilters.CascadeScenarioChange | src/data/filters.ts:292-320 | scenarios are replaced, campaigns and types kept. An encounter stays iff it belongs to an active scenario, or there are none. Under a non-empty scope a trait stays iff it is still available; with an empty scope traits are untouched |
| CardFilters.CascadeEncounterChange | src/data/filters.ts:322-333 | only encounters and traits change. Under a non-empty scope a trait stays iff it is still available; with an empty scope traits are untouched |
| FilterUrl.StatParamsAreNotFacetKeys | src/data/filters.ts:36-47 | no stat parameter shares its name with a facet parameter or with `view` (also lines 131) |
| FilterUrl.SplitSet | src/data/filters.ts:111 | the set of comma-separated values holds exactly the pieces of the split |
| FilterUrl.Resolve | src/data/filters.ts:108-113 | nothing for an absent or empty parameter; otherwise, in option order, exactly the options whose value is listed |
| FilterUrl.AsOptionsKeep | src/data/filters.ts:108-119 | resolving scenario options and then dropping their extra fields is resolving plain options |
| FilterUrl.ParseViewMode | src/data/filters.ts:101-104 | the view is "stats" exactly when the `view` parameter is `stats` |
| FilterUrl.ParseStatFilters | src/data/filters.ts:91-99 | the loop over `PARAM_TO_STAT` copies, in table order, each stat parameter present |
| FilterUrl.ParseStatFiltersGet | src/data/filters.ts:91-99 | each stat is named at most once; a stat's filter is its own parameter's value; names of no stat never appear |
| FilterUrl.ToURL | src/data/filters.ts:123-138 | `toURL` sets the facet parameters, then `view`, then each known stat filter. It returns the bare path exactly when nothing was set |
| FilterUrl.ToURLPathIff | src/data/filters.ts:136-137 | the path is returned iff no facet is selected, the view is "cards" and no stat filter names a stat |
| FilterUrl.AddStatParamsOther | src/data/filters.ts:132-135 | setting stat parameters never changes a facet or view parameter |
| FilterUrl.FacetParamsGet | src/data/filters.ts:125-131 | each facet parameter holds its selection's values joined by "," (absent when empty); `view` holds "stats" only in that view |
| FilterUrl.ViewModeRoundTrip | src/data/filters.ts:101-138 | reading the view mode from the location written gives back the view mode |
| FilterUrl.KeepSelected | src/data/filters.ts:112 | filtering the options by the values of a selection taken from them in order gives the selection back |
| FilterUrl.ResolveWritten | src/data/filters.ts:108-129 | a selection written as comma-joined values reads back as itself |
| FilterUrl.FiltersRoundTrip | src/data/filters.ts:106-138 | `parseURL(toURL(f))` restores every facet selection taken from its options in option order, when the options' values are distinct and every selected value is non-empty and has no ",", whatever the view and stat filters |
| FilterUrl.AddStatParamsGet | src/data/filters.ts:132-135 | the stat's parameter holds the stat's filter value, and is absent without one |
| FilterUrl.StatFiltersRoundTrip | src/data/filters.ts:91-138 | every stat filter naming a stat survives `toURL` then `parseStatFilters` with its value; no other name appears |
| CardStats.ToEntriesMembers | src/components/CardStats.tsx:68-69 | a slice is listed iff its name is a key of the map holding that count |
| CardStats.InsertDesc | src/components/CardStats.tsx:70 | insertion adds exactly one slice (same multiset plus it) |
| CardStats.InsertDescSorted | src/components/CardStats.tsx:70 | inserting into a list sorted by descending count keeps it sorted |
| CardStats.SortDesc | src/components/CardStats.tsx:70-85 | the sort by descending count is a permutation whose counts never increase |
| CardStats.SortDescStable | src/components/CardStats.tsx:70-85 | the sort is stable: slices with equal counts keep their map order |
| CardStats.CountBy | src/components/CardStats.tsx:60-71 | `countBy` builds the map of key weights in one loop, then sorts its entries |
| CardStats.CountBySlices | src/components/CardStats.tsx:60-71 | the slices are sorted by descending count. A slice (name, n) appears iff some card has that non-empty key and n is the summed weight of those cards (quantity in total mode, 1 in unique mode) |
| CardStats.CountTraits | src/components/CardStats.tsx:73-86 | `countTraits` is the nested card and trait loop over a map, then the sort |
| CardStats.CountTraitsSlices | src/components/CardStats.tsx:73-86 | the slices are sorted by descending count. A slice (t, n) appears iff some card lists trait t, and n is the summed weight of those occurrences. Every name is trimmed and non-empty |
| CardStats.StatDistribution | src/components/CardStats.tsx:185-198 | the loop's map is the accumulation of each card's value with its weight, skipping cards without a value |
| CardStats.DistributionGet | src/components/CardStats.tsx:185-198 | a value is a key iff some card gives it; its count is the weight of the cards in that column |
| CardStats.VarBucketHasNoValue | src/components/CardStats.tsx:217-259 | a card counted as "?" in a row gets no numeric value in that row |
| CardStats.ColumnTextInjective | src/components/CardStats.tsx:236-241 | distinct columns have distinct key texts ("?" or `String(n)`) |
| CardStats.VarTotalIsCell | src/components/CardStats.tsx:224-260 | the "?" count the loop sums is the weight of the cards landing in the "?" column |
| CardStats.BucketTotal | src/components/CardStats.tsx:217-230 | every card of a row lands in exactly one column: "?" exactly when the row's variable rule picks it |
| CardStats.RowCardsMembers | src/components/CardStats.tsx:215-250 | a row is built from exactly the input cards of its kind (enemies, locations, fixed or per-investigator clue locations) |
| CardStats.EnemyRowCards | src/components/CardStats.tsx:215 | every enemy row is built from the cards whose type is "enemy" |
| CardStats.LocationRowCards | src/components/CardStats.tsx:248-255 | the Shroud and Victory rows read the locations; the clue rows read the fixed and per-investigator clue locations |
| CardStats.ClueRowsDisjoint | src/components/CardStats.tsx:249-250 | no location is in both clue rows |
| CardStats.CollectValues | src/components/CardStats.tsx:233-263 | the nested loop collects exactly the values that are keys of some distribution |
| CardStats.SortedInts | src/components/CardStats.tsx:235-264 | the sorted values are strictly ascending and hold exactly the set's elements |
| CardStats.FillRow | src/components/CardStats.tsx:238-281 | a row gets one cell per sorted value with that value's count (0 if absent), then the "?" cell when the table has a "?" column |
| CardStats.CellsValue | src/components/CardStats.tsx:240-278 | the cell written for a value holds that value's count in the row's distribution, or 0 |
| CardStats.BuildEnemyData | src/components/CardStats.tsx:214-245 | the enemy table is the table specification for the six enemy stats |
| CardStats.EnemyVarCounts | src/components/CardStats.tsx:224-231 | the loop's per-row "?" counts are the weights of the enemies each row's rule picks |
| CardStats.EnemyDists | src/components/CardStats.tsx:216-223 | the six distributions are those of the enemy stats over the enemies, in table order |
| CardStats.BuildLocationData | src/components/CardStats.tsx:247-283 | the location table is the table specification for the four location stats |
| CardStats.ShroudVarCount | src/components/CardStats.tsx:257-260 | the `shroudVarCount` loop sums the weights of the locations with a variable shroud |
| CardStats.LocationDists | src/components/CardStats.tsx:252-274 | the four distributions are those of Shroud, Clues, Clues_pp and Victory over their lists |
| CardStats.LocationVarCounts | src/components/CardStats.tsx:265-274 | the "?" counts are the shroud count and three zeros; the table has a "?" column iff the shroud count is positive |
| CardStats.NoVarRule | src/components/CardStats.tsx:222-255 | the rows without a "?" rule (victory and clues) count nothing as "?" |
| CardStats.TableCell | src/components/CardStats.tsx:232-243 | each row has a cell for exactly the column keys; each cell holds the weight of the row's cards in that column |
| CardStats.KeysSound | src/components/CardStats.tsx:232-237 | every column key comes from some card of some row landing in it |
| CardStats.KeysComplete | src/components/CardStats.tsx:232-237 | every card of every row lands in a column that is a key |
| CardStats.CellMatchesFilter | src/components/CardStats.tsx:326 | a card is kept by the stat filter `row = key` iff it is in the row and lands in that column |
| CardStats.KeptCellWeight | src/components/CardStats.tsx:317-326 | a cell's count is the weight of the cards its click would keep |
| CardStats.HeatmapCell | src/components/CardStats.tsx:317-326 | every cell of a table holds the weight of the cards the stat filter for its row and column keeps. "?" cells of rows without a "?" rule hold 0 |
| CardStats.RemapVictoryGet | src/components/CardStats.tsx:365-369 | the filters are returned unchanged without the key. With the key, it moves to "Victory" with its value and the other entries keep their values |
| CardBrowser.StatKeyOfRow | src/components/CardBrowser.tsx:286 | a click on any row of either table names that row's own stat (victory rows by category) |
| CardBrowser.FilterKeyParts | src/components/CardBrowser.tsx:544-551 | the key has six parts (the five joined facet values and the joined `stat=value` pairs); what the key distinguishes is stated by FilterKeyInjective |
| CardBrowser.FilterKeySplits | src/components/CardBrowser.tsx:544-551 | with no "\|" in any value, splitting the key at "\|" gives back its six parts |
| CardBrowser.FilterKeyInjective | src/components/CardBrowser.tsx:544-551 | when facet values are non-empty and free of "," and "\|", and stat names are free of "=", "," and "\|" and stat values of "," and "\|", two filter states with the same key select the same values in all five facets and have the same stat filters, so the grid remounts on every filter change |
| CardBrowser.ValuesJoinInjective | src/components/CardBrowser.tsx:545-549 | one facet's comma-joined values determine the list of selected values |
| CardBrowser.StatPairsInjective | src/components/CardBrowser.tsx:550 | the comma-joined `stat=value` pairs determine the stat filters, names, values and order |
| CardBrowser.PairInjective | src/components/CardBrowser.tsx:550 | a `stat=value` pair whose name has no "=" determines its name and value |
| CardBrowser.JoinInjective | src/components/CardBrowser.tsx:545-550 | joining non-empty parts that avoid the separator character loses nothing: equal joins mean equal part lists |
| CardBrowser.Browser.constructor | src/components/CardBrowser.tsx:252-260 | the initial selections, view mode and stat filters are those read from the query string; nothing is pushed |
| CardBrowser.Browser.PushURL | src/components/CardBrowser.tsx:269-271 | the location of the current state is appended to the history |
| CardBrowser.Browser.SetFilters | src/components/CardBrowser.tsx:273-277 | the selections are replaced, and the new location is pushed |
| CardBrowser.Browser.SetViewMode | src/components/CardBrowser.tsx:279-283 | the view mode is replaced, and the new location is pushed |
| CardBrowser.Browser.HandleStatClick | src/components/CardBrowser.tsx:285-294 | clicking the active filter changes nothing. Otherwise the clicked stat is set, the view switches to cards, one location is pushed, and each stat stays filtered at most once |
| CardBrowser.Browser.ClearStatFilter | src/components/CardBrowser.tsx:296-302 | the stat's filter is deleted, nothing else changes, and one location is pushed |
| CardBrowser.Browser.SetTraits | src/components/CardBrowser.tsx:605 | only the traits are replaced (no cascade); one location is pushed |
| CardBrowser.Browser.SetTypes | src/components/CardBrowser.tsx:619 | only the types are replaced (no cascade); one location is pushed |
| CardBrowser.Browser.HandleCampaignChange | src/components/CardBrowser.tsx:420-453 | the selections become the campaign cascade of the old ones; one location is pushed |
| CardBrowser.Browser.HandleScenarioChange | src/components/CardBrowser.tsx:455-476 | the selections become the scenario cascade over the scenarios the selected campaigns offer; one location is pushed |
| CardBrowser.Browser.HandleEncounterChange | src/components/CardBrowser.tsx:478-485 | the selections become the encounter cascade; one location is pushed |
| CardBrowser.Browser.PopState | src/components/CardBrowser.tsx:304-313 | history navigation re-reads all state from the new location and pushes nothing |
| CardBrowser.Browser.FilteredCards | src/components/CardBrowser.tsx:487-542 | the shown cards are the facet filter, then the stat filters, of the current state |
| CardBrowser.StatClickFilters | src/components/CardBrowser.tsx:285-294 | a click sets the clicked stat, leaves every other stat filter unchanged, and the pushed location reads back with the clicked value |
| CardBrowser.ClearStatFilterGet | src/components/CardBrowser.tsx:296-302 | clearing removes that stat's filter and leaves every other filter unchanged |
| CardBrowser.ClickedVictoryIsActive | src/components/CardBrowser.tsx:286 | a clicked victory cell shows as active: `remapVictory` turns the stored key back into the "Victory" row with the clicked value |
| CampaignCharts.ParseTraits | src/components/CampaignCharts.tsx:62-65 | missing or empty text gives no traits; every trait is non-empty |
| CampaignCharts.ParseTraitsExample | src/components/CampaignCharts.tsx:62-65 | "Elite. Abomination." reads as ["Elite", "Abomination"] |
| CampaignCharts.FilterCards | src/components/CampaignCharts.tsx:67-71 | no cards without a selection; otherwise, in order, exactly the cards of the selected type or carrying the selected trait |
| CampaignCharts.ToggleFilter | src/components/CampaignCharts.tsx:289-293 | the result is the clicked bar, or none exactly when the clicked bar was already selected |
| CampaignCharts.ToggleTwice | src/components/CampaignCharts.tsx:289-293 | clicking the same bar twice from no selection leaves no selection |
| CampaignCharts.SelectedType | src/components/CampaignCharts.tsx:305 | a type bar is highlighted exactly when a type is selected, and it is that type |
| CampaignCharts.SelectedTrait | src/components/CampaignCharts.tsx:316 | a trait bar is highlighted exactly when a trait is selected, and it is that trait |
| CampaignCharts.Charts.constructor | src/components/CampaignCharts.tsx:285-287 | the component starts with no selection |
| CampaignCharts.Charts.Filtered | src/components/CampaignCharts.tsx:295 | the grid holds, in order, exactly the selected bar's cards; it is empty with no selection |
| CampaignCharts.Charts.Toggle | src/components/CampaignCharts.tsx:289-293 | a click sets the toggled selection; when that is none the grid is empty |
| CampaignCharts.Charts.Close | src/components/CampaignCharts.tsx:308-320 | the close button clears the selection and empties the grid |
| CampaignCharts.ClickHighlights | src/components/CampaignCharts.tsx:289-316 | after clicking a bar that was not selected, that bar and only its chart's bar is highlighted |
| Traits.ChartPieces | src/components/CardStats.tsx:78-80 | the cleaned trait pieces (one trailing dot removed, trimmed, empty dropped) are trimmed and non-empty |
| Traits.ChartTraitsRoundTrip | src/components/CardStats.tsx:78-79 | names written as the data writes them ("A. B.") read back as the names |
| Traits.ChartTraitsOf | src/components/CampaignCharts.tsx:62-65 | missing or empty text gives no names; every name is trimmed and non-empty |
| Traits.TrimDotsEnd | db/get-card-data.ts:44 | lodash `trimCharsEnd(".")` leaves a prefix of the input that does not end in "." |
| Traits.LoaderPieces | db/get-card-data.ts:38-45 | the decoder's clean-up yields at most one name per piece |
| Traits.DecoderEmptyName | db/get-card-data.ts:37-46 | as written, trait text "Elite. ." decodes to ["Elite", ""], including an empty name |
| Traits.DecoderTraitsFixed | db/get-card-data.ts:37-46 | the corrected decoder gives only non-empty names, without a trailing dot or leading space |
| Traits.FixedDropsOnlyEmpty | db/get-card-data.ts:37-46 | the correction removes exactly the empty names the decoder as written lets through |
| Traits.DotTraitsShape | scripts/insert-data.ts:15-22 | both `parseTraits` functions give no names for missing or empty text. Every name they give is non-empty and has no dot (also cmd/seed/main.go:54-66) |
| Traits.DotTraitsAgree | cmd/seed/main.go:54-66 | the TypeScript and Go `parseTraits` agree when the two runtimes agree on white space (also scripts/insert-data.ts:15-22) |
| Cards.CardImageUrl | src/data/card.ts:50-53 | no address for a missing or empty path; otherwise the image host followed by the path |
| Cards.ParseBaseCard | src/data/card.ts:55-97 | images become absolute addresses; double-sided only when the dump says true; a falsy slot is none; no link is set |
| Cards.ParseCard | src/data/card.ts:99-105 | the link code is copied, and the linked card is parsed one level deep exactly when present |
| Cards.BuildAllCards | src/data/card.ts:107-110 | the loop parses every raw card, in dump order |
| Cards.IndexByCode | src/data/card.ts:112-115 | the loop builds the code index |
| Cards.CodeMapSpec | src/data/card.ts:112-115 | every code is indexed, at a card with that code, and the last card with it wins |
| Cards.LastLinkerSpec | src/data/card.ts:117-122 | the last card among the first k linking to position j, or none when no such card exists |
| Cards.LinkBackReferences | src/data/card.ts:117-122 | the in-place loop leaves every card with the back-reference the link specification gives |
| Cards.LinkedShape | src/data/card.ts:117-122 | only `linkedToCard` changes. A card nobody links to is unchanged. A set back-reference points at a card that links to it |
| Cards.LinkTargetIsLastWithCode | src/data/card.ts:112-121 | a link resolves to the last card with the linked code |
| Cards.EncounterCards | src/data/card.ts:124-131 | a set's list holds exactly the cards with that encounter code |
| Cards.EncounterCardsInOrder | src/data/card.ts:124-131 | a set's list keeps corpus order |
| Cards.IndexByEncounter | src/data/card.ts:124-131 | the index has a non-empty list for exactly the non-empty codes some card has, equal to that set's cards |
| Cards.EncounterCardsDisjoint | src/data/card.ts:124-131 | no card is listed under two different encounter sets |
| Cards.LoadCorpus | src/data/card.ts:107-131 | the module's load: parse, index by code, link back-references in place, index by encounter. Every non-empty code with cards has its list of exactly those cards, and no other code has one |
| WebData.ParseCard | web/src/data/index.ts:75-105 | images become absolute addresses, a falsy slot is none, and codes and names are copied |
| WebData.FirstKeys | web/src/data/index.ts:109-112 | the keys of a list, each once, are exactly the keys of its elements |
| WebData.LastIndex | web/src/data/index.ts:109-112 | the position of the last element with a key, or none when no element has it |
| WebData.IndexKeys | web/src/data/index.ts:109-112 | a `set` per element leaves each key once, in order of first appearance |
| WebData.IndexGet | web/src/data/index.ts:109-112 | looking a key up gives the last element with that key, and nothing for an unseen key |
| WebData.BuildIndex | web/src/data/index.ts:109-168 | the loop of `set` calls builds the index |
| WebData.EncounterCards | web/src/data/index.ts:114-121 | a set's list holds exactly the cards with that encounter code |
| WebData.EncounterCardsInOrder | web/src/data/index.ts:114-121 | a set's list keeps corpus order |
| WebData.IndexByEncounter | web/src/data/index.ts:114-121 | the index has a non-empty list for exactly the non-empty codes some card has, equal to that set's cards |
| WebData.FirstImageSpec | web/src/data/index.ts:127-145 | the image found is that of the first card with a truthy image; none when no card has one |
| WebData.FirstImageAppend | web/src/data/index.ts:142-145 | the first image of joined lists comes from the first list that has one |
| WebData.EncounterCodes | web/src/data/index.ts:124-125 | the encounter codes of the corpus, each once: exactly the non-empty codes some card has |
| WebData.FirstIndex | web/src/data/index.ts:124-125 | the first card with a code among the first n, or none when there is none |
| WebData.EncounterSetsSpec | web/src/data/index.ts:123-135 | one set per encounter code, in order of first appearance, each named after its code's first card and listing the code's cards |
| WebData.BuildEncounterSets | web/src/data/index.ts:123-135 | the loop over the cards builds the encounter-set specification |
| WebData.UnknownCodesIgnored | web/src/data/index.ts:142-144 | codes without an encounter set contribute no cards to a scenario |
| WebData.ParseScenario | web/src/data/index.ts:141-155 | the scenario keeps its codes; its image is the first image of its encounter sets' cards |
| WebData.ParseCampaign | web/src/data/index.ts:140-163 | the campaign's scenarios are parsed in order. Its image is its first scenario's image, or none without scenarios |
| WebData.IndexScenarios | web/src/data/index.ts:170-175 | the nested loop indexes every scenario of every campaign by code, the last one winning |
| WebData.CardEntryOf | web/src/data/index.ts:180-190 | a card's search entry has kind "card" and id `card:<code>` |
| WebData.EncounterEntryOf | web/src/data/index.ts:192-200 | an encounter set's entry has kind "encounter" and id `encounter:<code>` |
| WebData.ScenarioEntryOf | web/src/data/index.ts:202-210 | a scenario's entry has kind "scenario" and id `scenario:<code>` |
| WebData.CampaignEntryOf | web/src/data/index.ts:212-220 | a campaign's entry has kind "campaign" and id `campaign:<code>` |
| WebData.KindNamesDistinct | web/src/data/index.ts:182-214 | entries of different kinds never share an id, whatever their codes |
| WebData.PushAll | web/src/data/index.ts:180-220 | pushing appends one entry per element, in order, after the existing ones |
| WebData.BuildSearchIndex | web/src/data/index.ts:177-223 | cards, then encounter sets, then scenarios, then campaigns, one well-formed entry each, in index order |
| WebData.Load | web/src/data/index.ts:107-175 | everything the module computes on load, each collection as its specification gives it |
| WebData.GettersSpec | web/src/data/index.ts:229-255 | `getCard`, `getCampaign` and `getScenario` give the last entry with the code or none. `getEncounterCards` gives the set's cards, or none for the empty code |
| WebData.EncounterListOf | web/src/data/index.ts:253-255 | looking up the encounter index gives a code's cards, and none for the empty code |
| CardData.Decode | db/get-card-data.ts:16-47 | a missing quantity becomes 1; the trait text becomes the decoder's trait names; codes are copied |
| CardData.CardCountDistinct | db/get-card-data.ts:97-100 | cards at pairwise distinct positions are all counted, so the count is their total quantity |
| CardData.GetEncounterSetsShape | db/get-card-data.ts:82-103 | with the names-only check the result is meant to have, the result is, in input order, the set of each first card of its code that has a pack code and both names |
| CardData.KeptFirstsSpec | db/get-card-data.ts:83-87 | the kept cards are the first of their code. A code has a set iff its first card has a pack code and names |
| CardData.IntendedSetOf | db/get-card-data.ts:82-103 | a set of the names-only result comes from a kept first card and lists exactly the cards with its code |
| CardData.IntendedHasSet | db/get-card-data.ts:82-103 | when a code's first card is kept, the names-only result has a set for that code listing exactly its cards |
| CardData.AsWrittenDropsTraited | db/get-card-data.ts:103 | as written, the final re-decode keeps exactly the names-only sets none of whose cards has traits |
| CardData.AsWrittenSpec | db/get-card-data.ts:82-103 | as written, a code has a set iff its first card has a pack code and both names and no card with that code has traits |
| CardData.TraitedSetDropped | db/get-card-data.ts:103 | for one kept card with traits, the names-only result is its set but the as-written result is empty |
| CardData.SetOfSpec | db/get-card-data.ts:84-100 | each set lists every input card with its code, in order, and counts them once per encounter position |
| Seeding.LinksSpec | scripts/insert-data.ts:74-80 | a scenario links to each of its encounter sets in order, at positions 1, 2, … (also cmd/seed/main.go:192-200) |
| Seeding.ScenarioPositions | scripts/insert-data.ts:64-72 | a campaign writes one row per scenario, in order, at positions 1, 2, … (also cmd/seed/main.go:181-190) |
| Seeding.CampaignsCallsCount | scripts/insert-data.ts:56-83 | every campaign, scenario and scenario link is written exactly once (also cmd/seed/main.go:162-206) |
| Seeding.PackCodeOnlyDifference | scripts/insert-data.ts:69 | the two loaders' campaign writes differ only in the scenario's pack code, which the Go seeder does not write (cmd/seed/main.go:182-188) |
| Seeding.WriteCampaigns | scripts/insert-data.ts:56-83 | the campaign loop makes the specified writes in order (also cmd/seed/main.go:173-202) |
| InsertData.TraitsArgAsWritten | scripts/insert-data.ts:43 | as written, passing any decoded trait list to `parseTraits` is a type error |
| InsertData.InsertCardsAsWritten | scripts/insert-data.ts:24-54 | as written, the loader throws iff some card it writes carries traits. Otherwise it writes the corrected rows |
| InsertData.ThrowsOnAnyTraits | scripts/insert-data.ts:43 | every dump record with trait text makes the loader throw |
| InsertData.InsertCards | scripts/insert-data.ts:24-54 | the corrected loop writes the specified rows |
| InsertData.Written | scripts/insert-data.ts:27 | only cards with a truthy pack code are written |
| InsertData.CardRowsSpec | scripts/insert-data.ts:26-27 | one row for each card with a pack code, in order, and none for the others |
| InsertData.RowSpec | scripts/insert-data.ts:28-52 | the row has the pack code, the pack name (defaulting to the pack code), the quantity (1 when missing) and the decoded trait names |
| InsertData.InsertCampaigns | scripts/insert-data.ts:56-83 | the campaign writes, with the pack code on each scenario |
| Seed.SeedCards | cmd/seed/main.go:108-160 | the loop writes the specified rows |
| Seed.Seeded | cmd/seed/main.go:120-122 | only cards with a pack code, even an empty one, are written |
| Seed.SeedRowsSpec | cmd/seed/main.go:119-156 | one row per card with a pack code, in dump order. The pack name defaults to the pack code (123-126) |
| Seed.SeedCampaigns | cmd/seed/main.go:162-206 | the campaign writes, without a pack code on the scenarios |
| Seed.LoadersAgreeOnRow | cmd/seed/main.go:129-153 | for a card with a non-empty pack code, the two loaders' rows differ only in quantity (missing versus 1) and in trait names (split at dots versus spaces) |
| Seed.SeederWritesEmptyPackCodes | cmd/seed/main.go:120-122 | the Go seeder writes every card the TypeScript loader writes, plus one per card whose pack code is empty |
| DbClient.TrimmedWords | db/db-client.ts:151 | no empty word is kept |
| DbClient.PrefixTerms | db/db-client.ts:151 | each word becomes the prefix match `word:*`, in order |
| DbClient.BlankQuery | db/db-client.ts:151 | the text query is empty exactly when the box holds only white space |
| DbClient.WordInQuery | db/db-client.ts:151 | every word of the box appears in the text query as `word:*` |
| DbClient.Present | db/db-client.ts:52 | the present values, and only they |
| DbClient.TraitNames | db/db-client.ts:53-65 | a card gets no trait names exactly when no row carries a trait for it |
| DbClient.SetCards | db/db-client.ts:69-72 | a set's cards are exactly the cards with its code |
| DbClient.ScenarioByCode | db/db-client.ts:49-50 | none exactly when the query returns no rows; otherwise the first row's scenario |
| DbClient.CampaignsSpec | db/db-client.ts:52 | the campaigns are the rows' present campaigns, each code once, the first row with it winning, in row order |
| DbClient.CardsSpec | db/db-client.ts:60-67 | one card per code, the first row's; each carries the trait names of its rows; every row's card is represented |
| DbClient.EncounterSetsSpec | db/db-client.ts:69-73 | the sets are the rows' present encounter sets in row order (which the query orders by scenario position), one per code, the first row's, each listing exactly that code's cards; every row's set is represented |
| SearchApi.Atoi | internal/api/search.go:27 | Go's `strconv.Atoi`: a number is read only from an optional sign and digits; a positive result has no "-" |
| SearchApi.AtoiDecimal | internal/api/search.go:27 | any integer written in decimal reads back |
| SearchApi.AtoiRejects | internal/api/search.go:27 | any character that is not a digit or a leading sign makes the text unreadable |
| SearchApi.Limit | internal/api/search.go:25-30 | the limit is always from 1 to 100; it is 20 for an empty parameter; any other value is the parameter read as a number |
| SearchApi.LimitOverride | internal/api/search.go:26-30 | a limit written as a number is taken exactly when it is from 1 to 100, otherwise 20 |
| SearchApi.LimitSpellings | internal/api/search.go:26-30 | "+050" is read as 50; " 50" and "50.0" fall back to 20 |
| SearchApi.TsQuerySpec | internal/api/search.go:32 | the query words are non-empty and contain no white space; the query is empty iff `q` is only white space |
| SearchApi.ClientAndServerWords | internal/api/search.go:32 | for text spaced only by " ", the server and the database client split the same words; the client makes each a prefix match (db/db-client.ts:151) |
| SearchApi.ToResults | internal/api/search.go:43-51 | the loop copies each row's fields into the result at the same index |
| SearchApi.Search | internal/api/search.go:18-55 | an empty `q` is a 400 and asks nothing. Otherwise the database is asked once with the text query and limit. A failure is a 500; success is a 200 with the rows' results in order |
| Routes.Base | src/routes.ts:3 | at most one trailing "/" is removed from the base URL, and nothing else (also web/src/routes.ts:1) |
| Routes.BaseStripsOnce | src/routes.ts:3 | "//" leaves "/", "/app/" leaves "/app", "/app" is kept |
| Routes.CodeOf | src/routes.ts:6-9 | a code read from a path of a kind rebuilds that path |
| Routes.CodeOfRoute | src/routes.ts:6-9 | a route reads back as its code |
| Routes.RouteInjective | src/routes.ts:6-9 | within a kind, distinct codes have distinct paths (also web/src/routes.ts:4-7) |
| Routes.KindsDisjoint | src/routes.ts:6-9 | pages of different kinds never share a path (also web/src/routes.ts:4-7) |
| Routes.IconSpec | src/routes.ts:10 | icons are SVG files under `/icons/`, and distinct codes have distinct icons (also web/src/routes.ts:8) |
| Routes.CardRoute | src/routes.ts:15-18 | a card links to the page of the card linked to it when there is one, else to its own page |
| StyleUtils.ClassNames | web/src/utils/cx.ts:1-5 | the kept names are non-empty, at most one per argument |
| StyleUtils.ClassNamesSpec | web/src/utils/cx.ts:4 | every truthy argument is kept, and every kept name is a truthy argument |
| StyleUtils.CxEmpty | web/src/utils/cx.ts:4 | the class attribute is empty exactly when no argument is truthy |
| StyleUtils.CxContains | web/src/utils/cx.ts:4 | each truthy argument appears in the class attribute |
| StyleUtils.CxSplit | web/src/utils/cx.ts:4 | for space-free names, splitting the attribute at " " gives back the truthy arguments |
| StyleUtils.CssGet | src/styles.ts:3-7 | each property of the merged style has its value in the last truthy style that sets it; unset properties are absent |
| StyleUtils.LastStyleWins | src/styles.ts:6 | a property set by the last style has that style's value |
| StyleUtils.StyleValueFilter | src/styles.ts:6 | dropping the falsy styles changes no property's value |
| StyleUtils.CssKeys | src/styles.ts:6 | the merged style lists each property once, and more styles only add properties |
| StyleUtils.CssEmpty | src/styles.ts:6 | with no truthy style, the merged style is empty |
| JsNumbers.ParseDecimal | src/data/filters.ts:371 | `parseInt(String(n))` is n for every integer, so a heat-map column's key reads back as its value |

## Left out

- Rendering, layout, colours and event wiring (React, recharts, react-select, the DOM) are left out. Only the state the handlers compute is modelled.
- The heat-map cell colours, luminance and text colour (CardStats.tsx:285-300, 318-320) are left out: they are floating-point display arithmetic.
- Browser history is a list of pushed locations. `window.location`, `popstate` delivery and React's asynchronous state updates are left out.
- `URLSearchParams` percent-encoding and decoding are not modelled. Parameter values are taken as already decoded.
- JavaScript object key order is not modelled: integer-like keys come first in real objects. Records are insertion-ordered association lists.
- `Object.prototype` keys such as "constructor" in the stat tables are not modelled. A name is a stat exactly when it is one of the ten table keys.
- CardBrowser.tsx repeats `computeScenarioOptions`, `pruneTraits`, the cascades and `filterCards` inline (CardBrowser.tsx:315-542). They are the same code as filters.ts, and the class's handlers use the CardFilters functions.
- CampaignCharts.Charts: the `mode` state (CampaignCharts.tsx:286, set through `onModeChange` at line 303) is not modelled. It starts as "total" and only chooses whether the unique or the total counts, both computed beforehand, are drawn. It does not affect the selection or the filtered grid.
- The search UI components, `getCardByCode` (an ORM lookup) and the other HTTP handlers are not part of this model.
- `getCards` fetches over HTTP, caches to a file and decodes JSON (get-card-data.ts:64-79). Only the per-card decoder is modelled, not the I/O. The cache holds the decoded cards (line 77), so reading it back (lines 66-69) decodes them a second time. That fails on any card with traits, for the same reason as the encounter-set filter under "## Findings".
- The decoders' rejection path is not modelled. `array(Card).verify` (get-card-data.ts:69, 75) throws on a record with a `null` or mistyped field. `RawCard` holds only records the decoder accepts.
- Card stats, quantities and positions are modelled as unbounded integers, not as JavaScript doubles. Card stats are small integers, far from where doubles lose precision.
- JsNumbers.ParseDecimal: holds for every integer, but in JavaScript `String(n)` switches to exponent form from 1e21, where `parseInt` no longer reads `n` back. It matches the source only below that bound.
- The `rawData` column, the JSON serialisation of each card, is left out of the written rows.
- The database is modelled as its effect: the list of upsert calls in order. Upsert conflicts and the schema are left out.
- Go's difference between a nil and an empty slice (the seeder's `traits` for text with no names) is not modelled. Both are the empty list.
- The scenario's campaign code in the Go seeder is always valid text (main.go:186). It is modelled as the plain code.
- `getAllCards`, `getAllCampaigns`, `getEncounterSet` and `getAllEncounterSets` return stored collections. They are fields of the loaded `Site`, whose contents `WebData.Load` states.
- `lodash.values(groupBy(...))` in db-client.ts:60 orders groups by JavaScript key order. The model lists cards in order of first row, which differs when codes look like integers.
- SearchApi.Atoi: the 64-bit range check of `strconv.Atoi` and the `int32` conversion of the limit are not modelled, because the limit is used only when it is from 1 to 100.
- SearchApi.Search: the `Cache-Control` header and JSON encoding are left out. The response is modelled as a status and a body value.
- StyleUtils.CssGet: CSS property values are a generic type. The order of integer-like keys in `Object.assign` is not modelled.
- The ordering and ranking the database applies to search results (`ts_rank`, the SQL `LIMIT`) are the database's own and are left out.
- DbClient: the `english` text-search configuration, which stems and drops stop words, is not modelled. The query is the text given to it.

## Findings

| source | as written | input that shows it | evidently intended | confidence | as-written member | corrected member |
|---|---|---|---|---|---|---|
| scripts/insert-data.ts:43 | `parseTraits` expects the raw trait text, but `insertCards` passes the decoder's already-split `string[]`. Any card with traits makes `.split` throw a TypeError, and the load stops | a dump record with `traits: "Humanoid. Monster."` and a pack code | write the decoded trait names | not executed | InsertData.InsertCardsAsWritten | InsertData.InsertCards |
| db/get-card-data.ts:103 | the final filter runs the set decoder, which decodes every card of the set again. A decoded card's traits are already a list of names, which the text decoder rejects. So every encounter set holding a card with traits is dropped | one card with encounter code `"e"`, pack code `"p"`, both names and traits `"Humanoid."` gives no set at all | keep every set whose encounter and pack names are present | not executed | CardData.TraitedSetDropped | CardData.GetEncounterSetsShape |
| db/get-card-data.ts:37-46 | the empty-piece filter runs before `trimCharsEnd(".")`, so a token made only of dots becomes an empty trait name | trait text `"Elite. ."` decodes to `["Elite", ""]` | drop the pieces that are empty after the dots are removed | not executed | Traits.DecoderEmptyName | Traits.DecoderTraitsFixed |
