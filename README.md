# chislopis data pipeline in Dafny

This project models the data pipeline of chislopis, a site that publishes datasets of the
Bulgarian National Statistical Institute (NSI) as charts. It covers the code between
"rows have been parsed" and "a chart type has been chosen", and it proves the properties
that code promises. There is one Dafny module per source file, plus a few shared modules.

- `ChartSelector` (chart_selector.dfy) models chart-type selection.
  - `AnalyzeData` profiles every column of the first row, in order. It infers each column's
    type, counts the distinct non-null values and keeps at most a hundred of them.
  - `SelectChartType` is the first-match rule list that picks `map`, `line`, `bar`, `pie`,
    `scatter` or `table`.
  - `SuggestAlternativeCharts` builds the list of alternatives.
  - `ValidateChartType` gives the reason a requested chart is rejected.
  - Lemmas prove the rule boundaries, for example pie at a cardinality of 7 but bar at 8, and
    that validation accepts whatever the selector picks.
- `NormalizeData` (normalize_data.dfy) models dataset normalisation.
  - It takes the headers from the first row and runs the richer column classifier: keywords,
    a year-range sample and a place-name gazetteer.
  - It applies the key-ness rule, filtering and the null-last sort. The sort is proved to
    return a sorted permutation.
- `JsonStat` (json_stat.dfy) models the flattening of a JSON-stat cube into records.
  - Each flat index is decoded in mixed radix, with the last dimension varying fastest.
  - The decode and encode round trip and the injectivity of decoding are proved.
  - The validator predicate is modelled as well.
- `LocalCsv` (local_csv.dfy) models the local NSI loader.
  - It chooses the data, fields and code-list files by suffix.
  - It rewrites rows column by column through the code lists.
  - It reconciles revisions: one row is kept per dimension key, the first one with the
    greatest revision.
- `MultiCsv` (multi_csv.dfy) models how NSI code lists become a (list, code) to label lookup,
  and how population rows are rewritten.
- `DataCache` (data_cache.dfy) models the one-hour dataset cache as a class. It holds a map
  and the insertion order of its keys. Entries are evicted on read, and one key or a
  dataset's prefix can be cleared.
- `BulgariaRegions` (bulgaria_regions.dfy) models the district and NUTS-2 region tables:
  - name and code lookup, ignoring case and spaces;
  - locale names;
  - keying data rows by region code, including the `TypeError` that a numeric region cell
    raises.
- `DatasetRegistry` (dataset_registry.dfy), `Categories` (categories.dfy) and
  `TranslateField` (translate_field.dfy) model the fixed tables and their lookups, filters
  and text search.
- `DatasetSearch` (dataset_search.dfy) models the body of the search box.
  - It builds the `category::subcategory` lookup and keeps the first ten matches.
  - With the tables as shipped, the category table lists no subcategories. The lookup is
    therefore empty and the search returns nothing; `ShippedSearchIsEmpty` proves this.
- The shared modules model JavaScript's own behaviour:
  - `Records` covers records whose fields keep insertion order, holding a string, an integer
    or null;
  - `Strings` covers `trim`, `includes`, `parseInt`, `String(n)` and string `<` on
    characters, and `toLowerCase` for the Latin-1 and Cyrillic letters the tables use;
  - `Seqs` covers `new Set`, `filter`, `find` and `slice`;
  - `Wrappers` covers `undefined` results and thrown errors, written as `Option` and
    `Result`;
  - `DatasetTypes` holds the types of types/dataset.ts.

Code that builds things step by step is modelled as methods with loops. Each method is proved
against a specification function, and the lemmas are stated about that function. This covers
`AnalyzeData`, `SuggestAlternativeCharts`, `AnalyzeDimensions`, the JSON-stat conversion,
`ProcessLocalRow`, `BestByKey`, `CreateCodeMappings`, `ProcessPopulationData`, the cache and
the search loop. Code made of expressions is modelled as functions.

## Model

| member | source | states |
|---|---|---|
| ChartSelector.InferColumnType | lib/charts/chartSelector.ts:70-96 | temporal exactly when the lower-cased name contains a temporal keyword; geographic exactly when it contains a geographic keyword and no temporal one; numerical only when more than 80% of the values are numbers (never for no values); categorical otherwise |
| ChartSelector.ProfileMeaning | lib/charts/chartSelector.ts:28-37 | a column's profile carries its name, the number of distinct non-null values as cardinality, and at most the first 100 of them, none null |
| ChartSelector.Profiles | lib/charts/chartSelector.ts:27-38 | one profile per header, in header order |
| ChartSelector.ProfilesMeaning | lib/charts/chartSelector.ts:32-37 | profile i is named after header i and keeps at most 100 values |
| ChartSelector.CountTypesSum | lib/charts/chartSelector.ts:40-53 | the four type counts add up to the number of columns |
| ChartSelector.FirstOfTypeFound | lib/charts/chartSelector.ts:119 | when some column has the type, the first such column is found and has that type |
| ChartSelector.Characteristics | lib/charts/chartSelector.ts:6-65 | no rows give all zeros; otherwise one profile per key of the first row, in order, and type counts that add up to the column count and agree with the profiles |
| ChartSelector.CharacteristicsOf | lib/charts/chartSelector.ts:56-64 | the characteristics are the row count, the profiles and the counts of each type among them |
| ChartSelector.ProfileStep | lib/charts/chartSelector.ts:32-37 | pushing the next header's profile keeps profile j equal to header j's profile |
| ChartSelector.ProfileColumn | lib/charts/chartSelector.ts:28-37 | the loop body computes the column's profile |
| ChartSelector.CountTypesAppend | lib/charts/chartSelector.ts:40-53 | pushing one profile raises exactly the count of its type by one |
| ChartSelector.ProfileHeaders | lib/charts/chartSelector.ts:27-54 | the loop leaves one profile per header and each counter equal to the number of profiles of its type |
| ChartSelector.AnalyzeData | lib/charts/chartSelector.ts:6-65 | analyzeData returns the characteristics of the data |
| ChartSelector.SelectChartTypeRules | lib/charts/chartSelector.ts:101-156 | the priority rules: map for geographic with numeric; line above 50 rows and bar otherwise for temporal with numeric; pie or bar by the category's cardinality; bar for two categories; scatter for two numeric; then table for more than 500 rows or 10 columns, else bar |
| ChartSelector.CheckChart | lib/charts/chartSelector.ts:210-254 | a verdict is valid exactly when it carries no reason |
| ChartSelector.ValidateChartTypeRules | lib/charts/chartSelector.ts:210-254 | bar and table are always valid; scatter exactly with two numeric columns; map and line exactly with a geographic or temporal column and a numeric one |
| ChartSelector.PieValidation | lib/charts/chartSelector.ts:229-240 | a pie is valid exactly with a categorical and a numeric column whose first categorical column has at most 15 values, and rejected for too many categories exactly when it has more |
| ChartSelector.SelectedChartIsValid | lib/charts/chartSelector.ts:101-254 | the chart selectChartType picks always passes validateChartType |
| ChartSelector.Alternatives | lib/charts/chartSelector.ts:161-198 | the deduplicated suggestion list starts with table |
| ChartSelector.PushNew | lib/charts/chartSelector.ts:197 | pushing a new type appends it to the deduplicated list |
| ChartSelector.PushMaybe | lib/charts/chartSelector.ts:197 | pushing a type already listed leaves the deduplicated list unchanged |
| ChartSelector.TimeSeriesStage | lib/charts/chartSelector.ts:169-174 | table, then line and bar for time series, has no duplicates |
| ChartSelector.TimeSeriesMembers | lib/charts/chartSelector.ts:169-174 | after that stage, bar is listed exactly for time series, and map, pie and scatter are not |
| ChartSelector.GeographicStage | lib/charts/chartSelector.ts:177-179 | pushing map and bar adds map, and bar only when no time series put it there already |
| ChartSelector.GeographicMembers | lib/charts/chartSelector.ts:177-179 | after that stage, bar is listed exactly for time series or geographic data |
| ChartSelector.CategoricalStage | lib/charts/chartSelector.ts:182-189 | the categorical pushes add bar only when not yet listed, and pie for a small first category |
| ChartSelector.CategoricalMembers | lib/charts/chartSelector.ts:182-189 | scatter is still unlisted after that stage |
| ChartSelector.PushesDeduplicated | lib/charts/chartSelector.ts:166-197 | for every combination of the five conditions, deduplicating the pushed list gives the reference list |
| ChartSelector.SuggestionsDeduplicated | lib/charts/chartSelector.ts:165-197 | for any characteristics, deduplicating the pushes gives the expected alternatives, which start with table |
| ChartSelector.PushCandidates | lib/charts/chartSelector.ts:166-194 | the push statements build the pushed list of the characteristics |
| ChartSelector.SuggestAlternativeCharts | lib/charts/chartSelector.ts:161-198 | the suggestions are the expected alternatives: table first, no duplicates |
| NormalizeData.Sample | lib/data/transformers/normalizeData.ts:102 | the sample is the first min(10, n) values |
| NormalizeData.InferDimensionTypePriority | lib/data/transformers/normalizeData.ts:61-86 | temporal exactly when the temporal test holds; geographic exactly when it fails and the geographic test holds; numerical exactly when both fail and more than 80% of the values are numbers; never numerical for no values |
| NormalizeData.YearColumnIsTemporal | lib/data/transformers/normalizeData.ts:100-111 | a column whose sampled distinct values all lie between 1900 and 2100 is temporal, whatever its name |
| NormalizeData.IsKeyDimensionRules | lib/data/transformers/normalizeData.ts:154-176 | a column with as many distinct values as rows is a key; temporal and geographic columns are keys; other columns with at most 90% distinct values are not |
| NormalizeData.Dimension | lib/data/transformers/normalizeData.ts:47-52 | a column's dimension carries the column's name |
| NormalizeData.Dimensions | lib/data/transformers/normalizeData.ts:36-56 | one dimension per header, in header order |
| NormalizeData.DimensionCardinality | lib/data/transformers/normalizeData.ts:40-42 | the cardinality is the number of distinct non-null values, never more than the number of rows |
| NormalizeData.DimensionOf | lib/data/transformers/normalizeData.ts:40-52 | the dimension is the name, the inferred type, the distinct count and the key verdict |
| NormalizeData.AnalyzeDimensions | lib/data/transformers/normalizeData.ts:36-56 | the loop computes the dimensions of the headers |
| NormalizeData.Normalize | lib/data/transformers/normalizeData.ts:6-31 | no rows give the empty result; otherwise the first row's keys as headers, the rows unchanged, their count, and one dimension per header named after it |
| NormalizeData.FilterData | lib/data/transformers/normalizeData.ts:181-202 | keeps exactly the rows that pass every filter: the field strictly equal to a scalar filter, or among an array filter's values, a missing field (`undefined`) matching neither; the headers are kept and the row count updated |
| NormalizeData.FilteredRowsHaveFields | lib/data/transformers/normalizeData.ts:185-192 | every kept row has each filtered field, holding the filter's value or one of its values, so a null filter never keeps a row that lacks the field |
| NormalizeData.FilterDataNoFilters | lib/data/transformers/normalizeData.ts:185-192 | no filters keep every row |
| NormalizeData.FilterDataKeepsOrder | lib/data/transformers/normalizeData.ts:185 | filtering commutes with splitting the rows, so the kept rows stay in their order |
| NormalizeData.Compare | lib/data/transformers/normalizeData.ts:212-222 | the comparator answers -1, 0 or 1, and 0 exactly for equal values; it reads a missing field as null (see Findings) |
| NormalizeData.CompareRules | lib/data/transformers/normalizeData.ts:216-221 | a missing value sorts last in both directions; descending order negates ascending for present values |
| NormalizeData.CompareAntisymmetric | lib/data/transformers/normalizeData.ts:212-222 | swapping the arguments negates the comparison |
| NormalizeData.ValLessTotal | lib/data/transformers/normalizeData.ts:220 | of two different present values, exactly one is less |
| NormalizeData.ValLessTransitive | lib/data/transformers/normalizeData.ts:220 | the value order is transitive |
| NormalizeData.CompareTransitive | lib/data/transformers/normalizeData.ts:212-222 | the comparator is transitive |
| NormalizeData.CompareCells | lib/data/transformers/normalizeData.ts:213-222 | the comparator as written, with `undefined` apart from null: 0 exactly for identical cells, 1 whenever the first is null or `undefined` and they differ, -1 when only the second is |
| NormalizeData.CompareCellsAgrees | lib/data/transformers/normalizeData.ts:216-221 | except for a null cell against an `undefined` one, the comparator as written answers what Compare answers |
| NormalizeData.NullAndMissingBothSortLast | lib/data/transformers/normalizeData.ts:216-217 | a row with a null field and a row without it each compare greater than the other in both directions, where Compare gives 0 |
| NormalizeData.Insert | lib/data/transformers/normalizeData.ts:212 | inserting a row adds exactly that row |
| NormalizeData.InsertSorted | lib/data/transformers/normalizeData.ts:212 | inserting into a sorted list keeps it sorted |
| NormalizeData.SortedSnoc | lib/data/transformers/normalizeData.ts:212 | appending a row no smaller than every row keeps a sorted list sorted |
| NormalizeData.SortRows | lib/data/transformers/normalizeData.ts:212 | sorting permutes the rows |
| NormalizeData.SortRowsSorted | lib/data/transformers/normalizeData.ts:212-222 | the sorted rows are in comparator order |
| NormalizeData.SortData | lib/data/transformers/normalizeData.ts:207-228 | sortData keeps the headers and metadata and permutes the rows |
| NormalizeData.SortDataOrdered | lib/data/transformers/normalizeData.ts:207-228 | the rows come out in comparator order, with every row missing the column at the end |
| JsonStat.LookupDimension | lib/data/fetchers/jsonStatFetcher.ts:50 | a found entry is listed under the name; nothing is found when there is no `dimension` or no entry of that name |
| JsonStat.CategoryKeys | lib/data/fetchers/jsonStatFetcher.ts:51-54 | the category keys come from `index` when present, else from `label` |
| JsonStat.DimNames | lib/data/fetchers/jsonStatFetcher.ts:41-43 | the `id` array when present, otherwise the keys of `dimension` in order |
| JsonStat.Sizes | lib/data/fetchers/jsonStatFetcher.ts:56 | one size per dimension: its number of categories |
| JsonStat.DigitOf | lib/data/fetchers/jsonStatFetcher.ts:71 | a defined category index is below the dimension's size |
| JsonStat.Digits | lib/data/fetchers/jsonStatFetcher.ts:68-73 | one index per dimension, each below its size when defined |
| JsonStat.DigitsCons | lib/data/fetchers/jsonStatFetcher.ts:69-73 | the first dimension is decoded last, from what the later dimensions leave |
| JsonStat.CategoryLists | lib/data/fetchers/jsonStatFetcher.ts:49-58 | one category list per dimension name |
| JsonStat.Convert | lib/data/fetchers/jsonStatFetcher.ts:30-85 | fails for a missing or falsy `value` and then for missing dimensions, each exactly; an unknown dimension error names a listed dimension; on success, one row per cell, carrying the cell as `value` |
| JsonStat.CellsStep | lib/data/fetchers/jsonStatFetcher.ts:69-78 | one step of the inner loop assigns dimension d-1's category and divides the remainder by its size |
| JsonStat.CellsDone | lib/data/fetchers/jsonStatFetcher.ts:80 | after the inner loop, setting `value` gives the decoded row |
| JsonStat.ConvertJSONStatToArray | lib/data/fetchers/jsonStatFetcher.ts:30-85 | the conversion, loops included, returns Convert's result |
| JsonStat.CollectCategories | lib/data/fetchers/jsonStatFetcher.ts:49-58 | the first dimension name without an entry is reported; when there is none, the category lists of all dimensions are collected |
| JsonStat.NoneUnknown | lib/data/fetchers/jsonStatFetcher.ts:50 | when every name has an entry, no unknown name is found |
| JsonStat.DecodeRow | lib/data/fetchers/jsonStatFetcher.ts:65-81 | the body of the outer loop builds the decoded row of cell i |
| JsonStat.ValidatedDataConverts | lib/data/fetchers/jsonStatFetcher.ts:90-97 | data that passes validateJSONStatData never fails the format checks; data that fails it converts, if at all, to no rows |
| JsonStat.ProductSnoc | lib/data/fetchers/jsonStatFetcher.ts:64-78 | the cube's cell count grows by the factor of one more dimension |
| JsonStat.StrideSumSnoc | lib/data/fetchers/jsonStatFetcher.ts:64-78 | the row-major index of one more dimension is the old index times its size plus its index |
| JsonStat.DivMod | lib/data/fetchers/jsonStatFetcher.ts:71-72 | quotient times size plus remainder gives back the index |
| JsonStat.DivBound | lib/data/fetchers/jsonStatFetcher.ts:72 | an index below p times s leaves a quotient below p |
| JsonStat.DecodeRoundTrip | lib/data/fetchers/jsonStatFetcher.ts:64-78 | every flat index below the cell count decodes to defined indices whose row-major index is that flat index |
| JsonStat.ProductPositive | lib/data/fetchers/jsonStatFetcher.ts:64 | a cube with cells has no empty dimension |
| JsonStat.DigitsDefined | lib/data/fetchers/jsonStatFetcher.ts:69-73 | without empty dimensions every index is defined |
| JsonStat.StrideSumLast | lib/data/fetchers/jsonStatFetcher.ts:69-73 | decoding peels the last dimension first |
| JsonStat.DecodeInjective | lib/data/fetchers/jsonStatFetcher.ts:64-78 | two different cells decode to different category indices |
| JsonStat.EmptyDimensionUndefined | lib/data/fetchers/jsonStatFetcher.ts:70-72 | a dimension without categories leaves the remainder undefined (NaN) |
| JsonStat.NoneStaysNone | lib/data/fetchers/jsonStatFetcher.ts:70-75 | once the remainder is undefined, every later index and cell is undefined |
| JsonStat.CellsKeys | lib/data/fetchers/jsonStatFetcher.ts:69-78 | with distinct names the row's keys are the dimension names, last one first |
| JsonStat.CellsGet | lib/data/fetchers/jsonStatFetcher.ts:74-77 | each dimension's key holds the category at its index |
| JsonStat.Reversed | lib/data/fetchers/jsonStatFetcher.ts:69 | the names in reverse order |
| JsonStat.ReversedMembership | lib/data/fetchers/jsonStatFetcher.ts:69 | reversing keeps the same names |
| JsonStat.RowAtShape | lib/data/fetchers/jsonStatFetcher.ts:65-81 | a row's keys are the dimension names, last first, then `value`, and each dimension holds its decoded category |
| JsonStat.LastDimensionFastest | lib/data/fetchers/jsonStatFetcher.ts:64-81 | in a 2x3 cube, cell 4 is (a2, b2): the last dimension varies fastest |
| JsonStat.FourDecodes | lib/data/fetchers/jsonStatFetcher.ts:68-73 | flat index 4 over sizes 2 and 3 decodes to indices 1 and 1 |
| DatasetRegistry.Ids | lib/data/datasetRegistry.ts:7-411 | the id list has one entry per dataset, in order |
| DatasetRegistry.UniqueIdsDistinct | lib/data/datasetRegistry.ts:7-411 | a list without repeated ids repeats neither an id nor a dataset |
| DatasetRegistry.IdsInjective | lib/data/datasetRegistry.ts:7-411 | two different registry entries have different ids |
| DatasetRegistry.EntryIdsUnique | lib/data/datasetRegistry.ts:7-411 | thirteen entries, no id at two positions |
| DatasetRegistry.RegistryUniqueIds | lib/data/datasetRegistry.ts:7-411 | the registry holds thirteen datasets with pairwise different ids |
| DatasetRegistry.RegistryIds | lib/data/datasetRegistry.ts:7-411 | thirteen datasets; neither an id nor a dataset occurs twice |
| DatasetRegistry.RegistryIdsAt | lib/data/datasetRegistry.ts:7-411 | dataset i of the registry carries the id of the i-th entry |
| DatasetRegistry.FindById | lib/data/datasetRegistry.ts:415 | finds nothing exactly when no dataset has the id; otherwise the first dataset with it |
| DatasetRegistry.FindByIdExact | lib/data/datasetRegistry.ts:414-416 | in a list without repeated ids, the lookup returns the one dataset with the id, and nothing exactly when none has it |
| DatasetRegistry.GetDatasetByIdExact | lib/data/datasetRegistry.ts:414-416 | getDatasetById returns the registered dataset that carries the id |
| DatasetRegistry.InCategory | lib/data/datasetRegistry.ts:419 | keeps exactly the datasets of the category, in list order |
| DatasetRegistry.GetDatasetsByCategoryExact | lib/data/datasetRegistry.ts:418-420 | a dataset is returned exactly when it is registered and belongs to the category |
| DatasetRegistry.GetDatasetsByCategoryInOrder | lib/data/datasetRegistry.ts:418-420 | the returned datasets keep registry order |
| DatasetRegistry.GetAllDatasets | lib/data/datasetRegistry.ts:422-424 | the whole registry: thirteen datasets, no id twice |
| DatasetRegistry.Search | lib/data/datasetRegistry.ts:428-431 | keeps exactly the datasets whose lower-cased title or description in the locale contains the query, in list order |
| DatasetRegistry.SearchDatasetsExact | lib/data/datasetRegistry.ts:426-432 | a dataset is returned exactly when it is registered and mentions the lower-cased query |
| DatasetRegistry.SearchDatasetsInOrder | lib/data/datasetRegistry.ts:426-432 | the returned datasets keep registry order |
| DatasetRegistry.EmptyQueryMatches | lib/data/datasetRegistry.ts:428-431 | the empty query keeps every dataset of a list |
| DatasetRegistry.EmptyQueryMatchesAll | lib/data/datasetRegistry.ts:426-432 | the empty query returns the whole registry |
| DatasetRegistry.SearchIgnoresQueryCase | lib/data/datasetRegistry.ts:427 | searching for the lower-cased query gives the same result as the query |
| BulgariaRegions.Codes | lib/geo/bulgariaRegions.ts:93 | the code list has one entry per region, in order |
| BulgariaRegions.UnitsWellShaped | lib/geo/bulgariaRegions.ts:16-57 | every code is `BG` and digits with its NUTS code equal to it, and neither name has a digit in third place |
| BulgariaRegions.UnitSlots | lib/geo/bulgariaRegions.ts:16-57 | the digits of each code determine the unit's position, so no code is used twice |
| BulgariaRegions.UnitLevels | lib/geo/bulgariaRegions.ts:16-57 | the first 28 units are districts with five-character codes; the others are statistical regions |
| BulgariaRegions.RegionAt | lib/geo/bulgariaRegions.ts:65 | the searched list holds 34 entries, the i-th being the unit at position i |
| BulgariaRegions.TableShape | lib/geo/bulgariaRegions.ts:16-57 | every entry of the searched list is well shaped and no code occurs twice |
| BulgariaRegions.TableUniqueCodes | lib/geo/bulgariaRegions.ts:16-57 | no code occurs twice in the searched list |
| BulgariaRegions.TableLevels | lib/geo/bulgariaRegions.ts:16-57 | 28 districts with five-character codes, then six statistical regions with four-character codes |
| BulgariaRegions.UniqueCodesDistinct | lib/geo/bulgariaRegions.ts:16-57 | pairwise different codes make a duplicate-free code list |
| BulgariaRegions.CodesDistinct | lib/geo/bulgariaRegions.ts:16-57 | the code list of the searched table is duplicate-free |
| BulgariaRegions.SameLoweredCode | lib/geo/bulgariaRegions.ts:69 | two codes of the table's shape that lower-case alike are equal |
| BulgariaRegions.CodesLowerApart | lib/geo/bulgariaRegions.ts:69 | different codes of that shape stay different after lower-casing |
| BulgariaRegions.FindByName | lib/geo/bulgariaRegions.ts:62-71 | finds nothing exactly when no region's Bulgarian name, English name or code lower-cases to the trimmed, lower-cased name; otherwise the first region that does |
| BulgariaRegions.FindIn | lib/geo/bulgariaRegions.ts:65-70 | the first region matching the normalized name, or nothing exactly when none matches |
| BulgariaRegions.FindIgnoresCase | lib/geo/bulgariaRegions.ts:63 | lower-casing the name first changes nothing |
| BulgariaRegions.FindIgnoresSurroundingSpace | lib/geo/bulgariaRegions.ts:63 | surrounding the name with white space changes nothing |
| BulgariaRegions.FindInFirstPart | lib/geo/bulgariaRegions.ts:65 | a match in the first list of the concatenation is found there |
| BulgariaRegions.FindInSecondPart | lib/geo/bulgariaRegions.ts:65 | when the first list has no match, the second list's answer is returned |
| BulgariaRegions.DistrictsSearchedFirst | lib/geo/bulgariaRegions.ts:65 | a name matching a district finds a district, as the districts alone would |
| BulgariaRegions.DistrictsAreDistricts | lib/geo/bulgariaRegions.ts:16-45 | every entry of the district list is a district |
| BulgariaRegions.RegionsSearchedSecond | lib/geo/bulgariaRegions.ts:65 | a name matching no district is looked up among the statistical regions |
| BulgariaRegions.FindInAt | lib/geo/bulgariaRegions.ts:65-70 | the lookup returns the region at the first matching position |
| BulgariaRegions.NamesUnlikeCodes | lib/geo/bulgariaRegions.ts:67-68 | a well-shaped region's names never lower-case to a string with a digit in third place |
| BulgariaRegions.Misses | lib/geo/bulgariaRegions.ts:67-69 | a well-shaped region does not match another region's lower-cased code |
| BulgariaRegions.EarlierUnitsMiss | lib/geo/bulgariaRegions.ts:65-70 | no region before position i matches the code of region i |
| BulgariaRegions.FindLoweredCode | lib/geo/bulgariaRegions.ts:65-70 | a lower-cased code finds its own region in a well-shaped list with distinct codes |
| BulgariaRegions.FindByCodeIn | lib/geo/bulgariaRegions.ts:62-71 | a region's code, as written, finds that region in such a list |
| BulgariaRegions.FindByCode | lib/geo/bulgariaRegions.ts:62-71 | findRegionByName of any region's code returns that region |
| BulgariaRegions.UnitWithCode | lib/geo/bulgariaRegions.ts:77 | finds nothing exactly when no region has the code; with distinct codes, the region that has it |
| BulgariaRegions.RegionName | lib/geo/bulgariaRegions.ts:76-79 | an unknown code names itself; a known code gives its region's name in the locale |
| BulgariaRegions.GetRegionNameExact | lib/geo/bulgariaRegions.ts:76-79 | getRegionName gives the region's name for each of the 34 codes and the code itself otherwise |
| BulgariaRegions.NormalizeName | lib/geo/bulgariaRegions.ts:84-87 | a name that finds a region becomes that region's name in the target locale; any other name is returned as is |
| BulgariaRegions.NormalizeCode | lib/geo/bulgariaRegions.ts:84-87 | normalizing a region's code gives its name in the target locale |
| BulgariaRegions.NormalizeIgnoresSourceLocale | lib/geo/bulgariaRegions.ts:84 | the source locale argument has no effect |
| BulgariaRegions.GetAllRegionCodes | lib/geo/bulgariaRegions.ts:92-94 | the 28 district codes in order, without duplicates and without any statistical-region code |
| BulgariaRegions.DistrictCodes | lib/geo/bulgariaRegions.ts:16-45 | 28 distinct district codes, none of them a statistical-region code |
| BulgariaRegions.PrefixCodesApart | lib/geo/bulgariaRegions.ts:65 | a prefix of a list with distinct codes has distinct codes, and shares none with the rest |
| BulgariaRegions.ParseNumber | lib/geo/bulgariaRegions.ts:104 | a number cell is its number, a text cell its integer prefix, an empty cell no number |
| BulgariaRegions.RowContribution | lib/geo/bulgariaRegions.ts:102-112 | a row with a falsy region or no number adds nothing; a truthy numeric region throws; otherwise a found region's code gets the number |
| BulgariaRegions.RegionDataMeaning | lib/geo/bulgariaRegions.ts:99-115 | without an error, the map's keys are distinct region codes and each code holds the value of the last row that named its region |
| BulgariaRegions.SkippedRow | lib/geo/bulgariaRegions.ts:106-108 | a row that contributes nothing leaves the map unchanged |
| BulgariaRegions.LaterRowOverwrites | lib/geo/bulgariaRegions.ts:109 | a later row for the same code overwrites its value and keeps the key order |
| BulgariaRegions.RegionDataError | lib/geo/bulgariaRegions.ts:102-112 | mapping fails exactly when some row has a truthy numeric region cell next to a number |
| BulgariaRegions.ErrorHasCause | lib/geo/bulgariaRegions.ts:102-112 | a failure comes from some row that throws |
| BulgariaRegions.ThrowingRowFails | lib/geo/bulgariaRegions.ts:102-112 | any row that throws makes the whole mapping fail |
| BulgariaRegions.LastRowError | lib/geo/bulgariaRegions.ts:102-112 | after a successful prefix, the mapping fails exactly when the last row throws |
| BulgariaRegions.PrefixErrorPersists | lib/geo/bulgariaRegions.ts:102 | a failure in a prefix persists when one more row is added |
| BulgariaRegions.ErrorPersists | lib/geo/bulgariaRegions.ts:102 | once a prefix fails, the rows after it do not change the outcome |
| BulgariaRegions.RegionDataSnoc | lib/geo/bulgariaRegions.ts:102-112 | one more row applies its contribution to the map built so far |
| BulgariaRegions.MapDataToRegions | lib/geo/bulgariaRegions.ts:99-115 | the result is the region map of the data over the whole table, or the error |
| BulgariaRegions.MapRows | lib/geo/bulgariaRegions.ts:100-114 | the forEach loop computes the region map of the rows over the given list |
| BulgariaRegions.MapRow | lib/geo/bulgariaRegions.ts:103-111 | one iteration computes the row's contribution |
| Categories.Ids | lib/data/categories.ts:17-109 | the id list has one entry per category, in order |
| Categories.CategoryIds | lib/data/categories.ts:17-109 | the table holds seven categories, and entry i carries the id of the i-th topic |
| Categories.TopicIdInjective | lib/data/categories.ts:17-109 | different topics have different ids |
| Categories.TopicIdListed | lib/data/categories.ts:17-109 | every id is one of `demographics`, `economy`, `labor`, `social`, `regional`, `sectoral`, `finance` |
| Categories.TopicIdsUnique | lib/data/categories.ts:17-109 | no id occurs twice in declaration order |
| Categories.CategoryUniqueIds | lib/data/categories.ts:17-109 | the table has seven entries with pairwise different ids |
| Categories.CategoryTable | lib/data/categories.ts:17-109 | seven categories and a duplicate-free id list |
| Categories.NoSubcategories | lib/data/categories.ts:3-15 | no shipped category lists a subcategory |
| Categories.FindCategory | lib/data/categories.ts:112 | finds nothing exactly when no category has the id; otherwise the first category with that id |
| Categories.GetCategoryByIdExact | lib/data/categories.ts:111-113 | the lookup succeeds exactly for the seven ids, and it returns the one category carrying the id |
| Categories.GetCategoryName | lib/data/categories.ts:115-118 | the category's name in the locale, or the id itself when no category has it |
| Categories.UnknownCategoryName | lib/data/categories.ts:115-118 | an id outside the seven names itself, in either locale |
| TranslateField.Lookup | lib/utils/translateField.ts:29 | the lookup finds labels exactly when some entry has the key, and what it finds is an entry of the table |
| TranslateField.Translate | lib/utils/translateField.ts:28-29 | a name whose lower-cased form has no entry comes back unchanged; otherwise the entry's label in the locale, or the name itself when that label is empty |
| TranslateField.KeysInjective | lib/utils/translateField.ts:5-26 | two different fields have different keys |
| TranslateField.TranslationAt | lib/utils/translateField.ts:5-26 | the table has 20 entries, and entry i is the key and labels of the i-th field in declaration order |
| TranslateField.FieldKeysUnique | lib/utils/translateField.ts:5-26 | no key appears at two positions of the table |
| TranslateField.TranslationsDistinct | lib/utils/translateField.ts:5-26 | the shipped table has distinct keys |
| TranslateField.FieldBulgarian | lib/utils/translateField.ts:6-25 | every Bulgarian label starts with a Cyrillic capital; every key starts below the Cyrillic block |
| TranslateField.TranslationsBulgarian | lib/utils/translateField.ts:6-25 | no Bulgarian label of the shipped table lower-cases to a key |
| TranslateField.FieldWellFormed | lib/utils/translateField.ts:6-25 | every English label lower-cases to its own key, and neither label is empty |
| TranslateField.TranslationsWellFormed | lib/utils/translateField.ts:6-25 | the shipped table is well formed in that sense |
| TranslateField.KeysDistinctLookup | lib/utils/translateField.ts:29 | with distinct keys, looking up entry i's key yields entry i's labels |
| TranslateField.KnownNameTranslates | lib/utils/translateField.ts:28-29 | a name that lower-cases to entry i's key translates to entry i's label in the locale |
| TranslateField.UnknownNameUnchanged | lib/utils/translateField.ts:29 | a name that lower-cases to no key is returned as given |
| TranslateField.CaseInsensitive | lib/utils/translateField.ts:28 | two names with the same lower-case form and a table entry translate alike |
| TranslateField.YearSpellings | lib/utils/translateField.ts:28-29 | `YEAR`, `Year` and `year` all translate to `Year` or `Година` |
| TranslateField.EnglishLabelStays | lib/utils/translateField.ts:28-29 | in a well-formed table with distinct keys, an English label translates to itself in English |
| TranslateField.BulgarianLabelStays | lib/utils/translateField.ts:28-29 | when no Bulgarian label lower-cases to a key, a Bulgarian label translates to itself in Bulgarian |
| TranslateField.TranslateTwice | lib/utils/translateField.ts:28-29 | for every table with those three properties, translating a translated name changes nothing |
| TranslateField.TranslateIdempotent | lib/utils/translateField.ts:4-30 | translateFieldName is idempotent in both locales |
| DataCache.CacheKey | lib/data/fetchers/dataCache.ts:21-23 | the key is the id, a colon and the locale: it starts with `datasetId:` and has their combined length |
| DataCache.Lookup | lib/data/fetchers/dataCache.ts:28-46 | data comes back exactly when the key is stored and not older than an hour, and it is the stored data |
| DataCache.WithoutPrefix | lib/data/fetchers/dataCache.ts:72-79 | exactly the keys not starting with the prefix remain, each with its entry |
| DataCache.WithoutKeys | lib/data/fetchers/dataCache.ts:79 | exactly the keys not in the list remain, each with its entry |
| DataCache.WithoutOneMore | lib/data/fetchers/dataCache.ts:79 | deleting one more listed key removes it from what is left |
| DataCache.WithoutPrefixedKeys | lib/data/fetchers/dataCache.ts:73-79 | deleting the collected prefixed keys is the same as dropping the prefix |
| DataCache.StatEntries | lib/data/fetchers/dataCache.ts:96-100 | one line per key in insertion order, holding the key, its age at `now` and its locale |
| DataCache.Cache.constructor | lib/data/fetchers/dataCache.ts:13 | the cache starts empty |
| DataCache.Cache.GetCachedData | lib/data/fetchers/dataCache.ts:28-46 | returns Lookup on the old store; an expired entry is deleted and nothing else changes |
| DataCache.Cache.Delete | lib/data/fetchers/dataCache.ts:41 | removes the key and keeps the other keys in order |
| DataCache.Cache.SetCachedData | lib/data/fetchers/dataCache.ts:51-62 | stores the entry stamped `now`; a new key goes last, an existing one keeps its place |
| DataCache.Cache.ClearCache | lib/data/fetchers/dataCache.ts:67-81 | with a non-empty locale, only that key goes; otherwise every key starting with `datasetId:` goes, and the order of the rest is kept |
| DataCache.Cache.CollectPrefixed | lib/data/fetchers/dataCache.ts:73-78 | collects the keys starting with the prefix, in insertion order |
| DataCache.Cache.DeleteAll | lib/data/fetchers/dataCache.ts:79 | deletes exactly the listed keys |
| DataCache.Cache.ClearAllCache | lib/data/fetchers/dataCache.ts:86-88 | the cache is empty afterwards |
| DataCache.Cache.GetCacheStats | lib/data/fetchers/dataCache.ts:93-101 | size is the number of keys; one entry line per key in insertion order, expired ones included |
| DataCache.SetThenGet | lib/data/fetchers/dataCache.ts:28-61 | data just stored is served until it is more than an hour old, and not after |
| DataCache.SetLeavesOthers | lib/data/fetchers/dataCache.ts:57 | storing under one key leaves every other key's answer as it was |
| DataCache.EvictionInvisible | lib/data/fetchers/dataCache.ts:39-42 | evicting an expired entry changes what no key reads as |
| DataCache.FirstColon | lib/data/fetchers/dataCache.ts:21-23 | for a colon-free id, the key's first colon sits right after the id |
| DataCache.CacheKeyInjective | lib/data/fetchers/dataCache.ts:21-23 | for colon-free ids, the key determines the id and the locale |
| DataCache.PrefixMatchesOwnKeysOnly | lib/data/fetchers/dataCache.ts:75 | for colon-free ids, a key built from another id never matches the prefix, so clearing `pop` keeps `population:en` |
| DatasetSearch.BuildLookupMap | components/search/useDatasetSearch.ts:14-25 | the nested loops build the lookup map of the category list: every subcategory of every category, later entries overwriting earlier ones |
| DatasetSearch.AddSubcategoriesKeys | components/search/useDatasetSearch.ts:17-22 | a key is in the map after one category exactly when it was before or is `cat.id::sub.id` for one of its subcategories |
| DatasetSearch.LookupMapKeys | components/search/useDatasetSearch.ts:14-25 | the lookup keys are exactly `cat.id::sub.id` over the subcategories of the listed categories |
| DatasetSearch.ShippedLookupMapEmpty | components/search/useDatasetSearch.ts:14-25 | with the category table as shipped, which lists no subcategories, the lookup map is empty |
| DatasetSearch.Matches | components/search/useDatasetSearch.ts:35-58 | there are never more matches than datasets |
| DatasetSearch.MatchesPrefix | components/search/useDatasetSearch.ts:35-58 | the matches among the first n datasets are a prefix of all matches |
| DatasetSearch.UseDatasetSearch | components/search/useDatasetSearch.ts:29-60 | the hook returns at most ten results, each linking to its dataset's category page, and they are the search's result |
| DatasetSearch.ScanDatasets | components/search/useDatasetSearch.ts:34-59 | the loop that stops at ten returns the first ten matches in dataset order |
| DatasetSearch.CheckDataset | components/search/useDatasetSearch.ts:38-57 | the loop body yields a result exactly when the lookup lists the dataset and its texts mention the query, and that result carries the looked-up names |
| DatasetSearch.StopsAtTen | components/search/useDatasetSearch.ts:36 | wherever the loop stops, after the last dataset or at ten matches, it holds the first ten matches |
| DatasetSearch.MatchesSkip | components/search/useDatasetSearch.ts:40-50 | a dataset that is not found leaves the matches as they were |
| DatasetSearch.MatchesAdd | components/search/useDatasetSearch.ts:50-57 | a dataset that is found adds its result at the end |
| DatasetSearch.MatchesHref | components/search/useDatasetSearch.ts:55 | every match links to `/{locale}/category/{category}/{subcategory}` of its dataset |
| DatasetSearch.MatchesExactly | components/search/useDatasetSearch.ts:38-57 | a dataset is among the matches exactly when the lookup lists it and its texts mention the query |
| DatasetSearch.ShortQueryFindsNothing | components/search/useDatasetSearch.ts:30-31 | a query that trims to fewer than two characters finds nothing |
| DatasetSearch.SearchResults | components/search/useDatasetSearch.ts:29-60 | the results are the first min(10, matches) matches; each is a found dataset, and with at most ten matches every found dataset is returned |
| DatasetSearch.UnlistedNeverReturned | components/search/useDatasetSearch.ts:39-40 | a dataset whose `category::subcategory` key is not in the lookup is never returned |
| DatasetSearch.SearchRegistry | components/search/useDatasetSearch.ts:13-61 | the hook over the registry and the category table computes the search |
| DatasetSearch.EmptyLookupFindsNothing | components/search/useDatasetSearch.ts:39-40 | with an empty lookup map nothing is ever found |
| DatasetSearch.NoMatchesWithoutLookup | components/search/useDatasetSearch.ts:39-40 | with an empty lookup map there are no matches |
| DatasetSearch.ShippedSearchIsEmpty | components/search/useDatasetSearch.ts:13-61 | with the shipped tables the search never returns anything |
| LocalCsv.FindFileByPattern | lib/data/fetchers/localCsvLoader.ts:9-17 | nothing when the directory cannot be read; otherwise nothing exactly when no file name ends with the pattern, and a found name is a listed file ending with it |
| LocalCsv.FindFileFirst | lib/data/fetchers/localCsvLoader.ts:12 | of several matching files, the first in the listing is taken |
| LocalCsv.LoadLocalCsv | lib/data/fetchers/localCsvLoader.ts:24-62 | fails exactly when the directory is missing, then exactly when no `-data.csv` file exists; otherwise the data file's text always parsed, the optional fields and code-list files parsed only when found and non-empty, and no rows from them otherwise |
| LocalCsv.LabelOr | lib/data/fetchers/localCsvLoader.ts:92-104 | the code list's truthy label for the code, else the fallback |
| LocalCsv.LocalRowStep | lib/data/fetchers/localCsvLoader.ts:78-118 | one more column applies its effect to the record built so far |
| LocalCsv.ProcessLocalRow | lib/data/fetchers/localCsvLoader.ts:76-120 | the column loop builds the row's rewrite |
| LocalCsv.RowKeys | lib/data/fetchers/localCsvLoader.ts:126-134 | one dedup key per row |
| LocalCsv.Entries | lib/data/fetchers/localCsvLoader.ts:127 | one (row, revision) pair per row |
| LocalCsv.RowKeysAt | lib/data/fetchers/localCsvLoader.ts:127-134 | entry i is row i's dedup key, and row i with its revision |
| LocalCsv.Best | lib/data/fetchers/localCsvLoader.ts:125-140 | the map holds exactly the keys that occur |
| LocalCsv.Dedup | lib/data/fetchers/localCsvLoader.ts:124-145 | one row per distinct key, none of them carrying `_revision` |
| LocalCsv.ProcessLocal | lib/data/fetchers/localCsvLoader.ts:68-150 | the headers are the first record's keys, or none without records; never more records than data rows |
| LocalCsv.KeyPartsOf | lib/data/fetchers/localCsvLoader.ts:128-133 | the loop collects the stringified values of every column except `_revision` and the value column |
| LocalCsv.DedupKeyOf | lib/data/fetchers/localCsvLoader.ts:127-134 | the dedup key is those parts joined with `|` |
| LocalCsv.KeyPartsReadStoredFields | lib/data/fetchers/localCsvLoader.ts:129-133 | every key part is the string of a field the row has, so no part renders a missing field |
| LocalCsv.BestStep | lib/data/fetchers/localCsvLoader.ts:136-139 | a row replaces the kept one when its key is new or its revision is greater |
| LocalCsv.BestByKey | lib/data/fetchers/localCsvLoader.ts:125-140 | the loop leaves the best map over all rows, its keys in first-seen order |
| LocalCsv.Deduplicate | lib/data/fetchers/localCsvLoader.ts:124-145 | the dedup stage returns Dedup's rows |
| LocalCsv.BestKeepsLatest | lib/data/fetchers/localCsvLoader.ts:136-139 | every key is kept, and no row of that key has a greater revision than the kept one |
| LocalCsv.FirstLatestPrefix | lib/data/fetchers/localCsvLoader.ts:137 | a row that beats every earlier row of its key in a prefix does so in the whole list |
| LocalCsv.BestIsFirstLatest | lib/data/fetchers/localCsvLoader.ts:136-139 | the kept entry of a key is a row of that key that beats every earlier row of the key |
| LocalCsv.RevisionDigits | lib/data/fetchers/localCsvLoader.ts:86 | the revision is the number its digits spell, 0 without digits, never negative |
| LocalCsv.UnitsDropped | lib/data/fetchers/localCsvLoader.ts:81-83 | the `Units` column is dropped |
| LocalCsv.NutsRewrite | lib/data/fetchers/localCsvLoader.ts:92-94 | `NUTS` becomes the code list's label, or the raw code when unmapped, with the raw code in `NUTS_Code`; nothing else changes |
| LocalCsv.EkatteRewrite | lib/data/fetchers/localCsvLoader.ts:95-97 | `EKATTE` becomes the code list's label, or the raw code when unmapped, with the raw code in `EKATTE_Code`; nothing else changes |
| LocalCsv.AgeRewrite | lib/data/fetchers/localCsvLoader.ts:105-107 | `Age` becomes the code list's label, or the raw code when unmapped, with the raw code in `Age_Code`; nothing else changes |
| LocalCsv.RevisionRewrite | lib/data/fetchers/localCsvLoader.ts:85-88 | `RevisionColumn` becomes `_revision`, a number of at least 0; nothing else changes |
| LocalCsv.ResidenceRewrite | lib/data/fetchers/localCsvLoader.ts:98-100 | a mapped label wins, even for code `0`; otherwise `0` is `Total` and other codes stay; `Residence_Code` keeps the code; nothing else changes |
| LocalCsv.GenderRewrite | lib/data/fetchers/localCsvLoader.ts:101-104 | `GenderID`, `Gender` and `Gender_Child` become `Gender` through the code list of their own name, with `0` as `Total` when unmapped, plus `Gender_Code`; nothing else changes |
| LocalCsv.GenderField | lib/data/fetchers/localCsvLoader.ts:101-104 | the gender columns write `Gender`, then `Gender_Code` |
| LocalCsv.GenderKind | lib/data/fetchers/localCsvLoader.ts:101 | the three gender names take the gender branch |
| LocalCsv.PeriodRewrite | lib/data/fetchers/localCsvLoader.ts:108-109 | `periods`, `Period` and `Edu_schYear` become `Year`, as a string; nothing else changes |
| LocalCsv.PeriodField | lib/data/fetchers/localCsvLoader.ts:108-109 | the period columns write `Year` only |
| LocalCsv.PeriodKind | lib/data/fetchers/localCsvLoader.ts:108 | the three period names take the period branch |
| LocalCsv.ValueRewrite | lib/data/fetchers/localCsvLoader.ts:110-111 | `ValueColumn` and `Value` land in the caller's value column, as a number or 0; nothing else changes |
| LocalCsv.ValueField | lib/data/fetchers/localCsvLoader.ts:110-111 | the value columns write the value column only |
| LocalCsv.ValueKind | lib/data/fetchers/localCsvLoader.ts:110 | `ValueColumn` and `Value` take the value branch |
| LocalCsv.CodedColumnRewrite | lib/data/fetchers/localCsvLoader.ts:112-114 | any other column with a code list of its name gets the label or the code, plus `<key>_Code`; nothing else changes |
| LocalCsv.PlainColumnCopied | lib/data/fetchers/localCsvLoader.ts:115-116 | any other column is copied as it is; nothing else changes |
| LocalCsv.KeyPartsWithoutRevision | lib/data/fetchers/localCsvLoader.ts:130-142 | the key parts skip `_revision`, so removing it changes none of them |
| LocalCsv.DedupKeyWithoutRevision | lib/data/fetchers/localCsvLoader.ts:142 | a returned row has the same dedup key as the row it came from |
| LocalCsv.KeptRow | lib/data/fetchers/localCsvLoader.ts:125-140 | the row kept for a key is a row of that key, the first with the greatest revision |
| LocalCsv.DedupOneRowPerKey | lib/data/fetchers/localCsvLoader.ts:141-144 | the j-th returned row has the j-th distinct key, in first-seen order |
| LocalCsv.DedupKeepsLatestRevision | lib/data/fetchers/localCsvLoader.ts:124-145 | for every input row, a returned row has its key and a revision no smaller, and is that row without `_revision` |
| LocalCsv.NoRevisionNoDedup | lib/data/fetchers/localCsvLoader.ts:124 | when the first record has no `_revision`, every rewritten row is returned, in order |
| LocalCsv.RevisionDedups | lib/data/fetchers/localCsvLoader.ts:124-145 | when it has one, the rows are deduplicated and none keeps `_revision` |
| Records.Assign | lib/data/fetchers/localCsvLoader.ts:113-116 | writing a field sets that field and no other; an existing field keeps its place, a new one goes last |
| Records.Remove | lib/data/fetchers/localCsvLoader.ts:141-143 | the rest of a record without `_revision`: that field is gone, every other field is unchanged and keeps its order |
| Records.FieldValue | lib/data/transformers/normalizeData.ts:188-190 | `row[key]`: nothing (`undefined`) exactly when the record lacks the field, otherwise the stored value |
| MultiCsv.CodeChoice | lib/data/fetchers/multiCsvFetcher.ts:59 | a missing code becomes the empty string, any other code its string form |
| MultiCsv.LabelChoice | lib/data/fetchers/multiCsvFetcher.ts:61-64 | the label is the first truthy of the English-name column, `Name_en` and `Name`, else the code |
| MultiCsv.CreateCodeMappings | lib/data/fetchers/multiCsvFetcher.ts:54-75 | the loop builds the code-list lookup of the entries |
| MultiCsv.AddDefinitionCreates | lib/data/fetchers/multiCsvFetcher.ts:68-71 | a missing code list is created empty before the code is set in it |
| MultiCsv.MappingsStep | lib/data/fetchers/multiCsvFetcher.ts:57-72 | one more entry applies its definition to the lookup built so far |
| MultiCsv.AddDefinitionLookup | lib/data/fetchers/multiCsvFetcher.ts:66-71 | one entry defines its (code list, code) pair with its label and leaves every other pair as it was |
| MultiCsv.BuildDomain | lib/data/fetchers/multiCsvFetcher.ts:57-72 | a (code list, code) pair is in the lookup exactly when some entry defines it |
| MultiCsv.BuildLastWins | lib/data/fetchers/multiCsvFetcher.ts:71 | the label of a pair is the one of the last entry defining it |
| MultiCsv.MappingsDomain | lib/data/fetchers/multiCsvFetcher.ts:54-75 | createCodeMappings holds exactly the pairs some entry with a truthy code list defines |
| MultiCsv.LastEntryWins | lib/data/fetchers/multiCsvFetcher.ts:54-75 | the last entry defining a pair decides its label |
| MultiCsv.MappingsKeys | lib/data/fetchers/multiCsvFetcher.ts:66 | entries with a falsy code list are skipped: every code-list name in the lookup is truthy |
| MultiCsv.MappedOr | lib/data/fetchers/multiCsvFetcher.ts:96-120 | the mapped label when there is a truthy one, else the raw code |
| MultiCsv.NumberOrZero | lib/data/fetchers/multiCsvFetcher.ts:126 | the parsed number, or 0 when the text does not parse |
| MultiCsv.KindOf | lib/data/fetchers/multiCsvFetcher.ts:94-129 | a column falls through to the last branch exactly when its name is none of the special ones |
| MultiCsv.ProcessPopulation | lib/data/fetchers/multiCsvFetcher.ts:82-142 | one record per row, each the row's rewrite; headers are the first record's keys, or none without rows |
| MultiCsv.ProcessPopulationRow | lib/data/fetchers/multiCsvFetcher.ts:86-133 | the column loop builds the row's rewrite |
| MultiCsv.ProcessPopulationData | lib/data/fetchers/multiCsvFetcher.ts:82-142 | processPopulationData returns ProcessPopulation's result |
| MultiCsv.RowsStep | lib/data/fetchers/multiCsvFetcher.ts:86 | mapping one more row keeps record j equal to row j's rewrite |
| MultiCsv.NutsRewrite | lib/data/fetchers/multiCsvFetcher.ts:94-97 | `NUTS` becomes the mapped label or the raw code, plus `NUTS_Code`; nothing else changes |
| MultiCsv.AgeRewrite | lib/data/fetchers/multiCsvFetcher.ts:118-121 | `Age` becomes the mapped label or the raw code, plus `Age_Code`; nothing else changes |
| MultiCsv.ResidenceRewrite | lib/data/fetchers/multiCsvFetcher.ts:98-107 | code `0` is always `Total`, other codes the mapped label or the code; `Residence_Code` keeps the code; nothing else changes |
| MultiCsv.GenderRewrite | lib/data/fetchers/multiCsvFetcher.ts:108-117 | `GenderID` and `Gender` both become `Gender` through the `GenderID` list, with `0` as `Total`, plus `Gender_Code`; nothing else changes |
| MultiCsv.GenderField | lib/data/fetchers/multiCsvFetcher.ts:108-117 | the gender columns write `Gender`, then `Gender_Code` |
| MultiCsv.GenderKind | lib/data/fetchers/multiCsvFetcher.ts:108 | `GenderID` and `Gender` take the gender branch |
| MultiCsv.PeriodRewrite | lib/data/fetchers/multiCsvFetcher.ts:122-123 | `periods` and `Period` become `Year`, as a string; nothing else changes |
| MultiCsv.PeriodField | lib/data/fetchers/multiCsvFetcher.ts:122-123 | the period columns write `Year` only |
| MultiCsv.PeriodKind | lib/data/fetchers/multiCsvFetcher.ts:122 | `periods` and `Period` take the period branch |
| MultiCsv.ValueRewrite | lib/data/fetchers/multiCsvFetcher.ts:124-126 | `ValueColumn` and `Value` become `Population`, as a number or 0; nothing else changes |
| MultiCsv.ValueField | lib/data/fetchers/multiCsvFetcher.ts:124-126 | the value columns write `Population` only |
| MultiCsv.ValueKind | lib/data/fetchers/multiCsvFetcher.ts:124 | `ValueColumn` and `Value` take the value branch |
| MultiCsv.OtherColumnsPassThrough | lib/data/fetchers/multiCsvFetcher.ts:127-129 | a row with distinct keys and no special column comes out unchanged |
| MultiCsv.LastKeyNew | lib/data/fetchers/multiCsvFetcher.ts:90 | in a row with distinct keys, the last key is not among the earlier ones |
| MultiCsv.OtherField | lib/data/fetchers/multiCsvFetcher.ts:127-129 | any other column is copied under its own name |
| MultiCsv.AssignAppends | lib/data/fetchers/multiCsvFetcher.ts:128 | assigning a new key appends it at the end |

## Left out

- Rendering is not part of this model: React, ECharts and Leaflet components, dashboards, the
  search UI state and animation, and `useMemo` memoisation of the search.
- Network and file I/O are parameters or are left out.
  - `LocalCsv.LoadLocalCsv` takes the directory check, the listing, the file reader and the
    CSV parser as parameters.
  - `fetchJSONStat`, `fetchCSV`, `fetchMultiCsv` and `fetchAndProcessMultiCsv` are left out,
    because they only fetch and hand on parsed rows.
  - CSV tokenising by PapaParse is taken as given input.
- Records.Get reads a missing field as Null, so `undefined` and null are one value wherever the
  model reads a cell through it. Filtering keeps them apart through `Records.FieldValue`. The
  key parts of the revision dedup read only fields the row has, so the merge does not arise
  there. Sorting does merge them (see the Compare line and Findings).
- Compare reads a missing field as null and answers 0 for a null field against a missing one.
  The source answers 1 in both orders, which gives JavaScript's sort an inconsistent comparator
  and an engine-defined order; `CompareCells` models the source as written.
- Strings.LowerChar and Strings.ToLower lower-case only A-Z, the Latin-1 capitals À-Þ (not ×),
  and the Cyrillic capitals Ѐ-Я. JavaScript's `toLowerCase` covers all of Unicode, including
  Greek, Latin Extended and the special case of İ.
- Strings.StrLess and string lengths count Unicode scalar values. JavaScript's `<` and `.length`
  count UTF-16 code units. Strings outside the Basic Multilingual Plane can therefore order
  differently. A one-character query such as a single emoji has length 2 in JavaScript, so it
  passes the search box's minimum-length test there but not in `DatasetSearch.UseDatasetSearch`.
- Floating point is not modelled. Numbers are integers, and `parseFloat` is modelled by the
  integer-prefix parser `Strings.ParseInt`, where None stands for NaN.
  - Ratio tests such as `> 0.8`, `> 0.5`, `> 0.2` and `> 0.9` are stated as cross-multiplied
    integer comparisons.
  - A fractional cell value is out of scope.
- `Date.now()` in the cache is the explicit `now` parameter, in milliseconds.
- The mock data generator is not part of this model, because it uses `Math.random`.
- JavaScript moves integer-like keys to the front of an object's key order. `Records` keeps
  plain insertion order.
- `NormalizeData.SortData` orders numbers before strings when a column mixes them. JavaScript's
  `<` between a number and a string has no consistent order.
- `DatasetTypes.Dataset` keeps only the registry fields that the lookup and search code reads.
  URLs, dimensions, update dates and other display fields are dropped.
- `Categories.Category` has a `subcategories` field that the source's category type lacks. The
  search code reads it, and every shipped category has it empty.
- `DataCache` stores data as a sequence of rows. The source's `any` payload is not modelled.
- `DataCache.FirstColon`, `DataCache.CacheKeyInjective` and `DataCache.PrefixMatchesOwnKeysOnly`
  hold for dataset ids without a colon, which all registry ids are. An id containing a colon
  can make prefix clearing remove another dataset's keys.
- The chart-selection members take no `dataset` argument. The source accepts one, passes it on
  to `analyzeData`, and never reads it.
- `JsonStat` reads an object `category.index` or `category.label` as its keys in written
  order. JavaScript's `Object.keys` would move integer-like keys to the front.
- Scripts, API routes, middleware and configuration are not part of this model.

## Findings

| source | as written | input that shows it | evidently intended | confidence | as-written member | corrected member |
|---|---|---|---|---|---|---|
| lib/data/transformers/normalizeData.ts:216-217 | `if (aVal == null) return 1;` runs before `bVal` is tested. A null field and a missing field are not `===`, so each compares greater than the other | `sortData` by `x` over the rows `{x: null}` and `{}`: the comparator answers 1 both ways | null and `undefined` compare equal and both sort last, so the comparator is antisymmetric | medium, not executed | NormalizeData.NullAndMissingBothSortLast | NormalizeData.CompareAntisymmetric |
