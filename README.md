# Arc Raiders recycling tracker: the scraper and catalog loader, in Dafny

This project models the data path of the Arc Raiders recycling tracker. The
scraper (`WikiScraper`) fetches the wiki's category pages with retries and
collects item links from them. It then fetches each item page and extracts the
materials an item recycles or salvages into, using tables, lists or free text
parsed by five regular expressions. It counts what failed and returns a
catalog dictionary of categories and items with metadata. The page generator
(`HTMLGenerator`) loads that catalog back, checks its schema in a fixed order,
and builds the material filter list: the distinct material names, sorted, each
with a slug id.

The model is split by component:

- `Text`, `Html`: the Python string operations and the BeautifulSoup queries the
  code relies on. A document is a tree of elements and text leaves.
- `MaterialParser`: `_parse_material_text` and `_parse_quantity`. The regular
  expressions are matched by hand with Python's `re.search` semantics: leftmost
  start, lazy name group, greedy digits, and `x` matching `X` under IGNORECASE.
- `Extractors`: the table, list and text extractors.
- `Sections`: the section walk of `_extract_section_materials` and the sibling
  walk of `extract_recycling_data`.
- `Items`: `_scrape_loot_item`, which merges the recycling section with the
  salvaging section, the latter tagged `(Salvage) `.
- `LinkDiscovery`: the link filters of category pages and of the Loot page.
- `Retry`: the `retry_with_backoff` decorator.
- `Catalog`: the dataclasses, `to_dict`, the result dictionary, and a small JSON
  value type.
- `Aggregator`: the `WikiScraper` class, with its failure lists as fields.
- `Generator`: the `HTMLGenerator` class, with `load_data` and the filter list
  of `generate_checkboxes_html`.

The network and the clock are parameters:
- Each fetch is named by its place in the run, not by its URL: a category
  page by the category's position and the attempt number; an item page by the
  category's position, the link's position and the attempt number; a loot
  item page by the candidate's position. Its outcome is either the page or the
  error text raised. Two fetches of the same URL are separate calls and may
  have different outcomes (`Aggregator.LootRepeatFetchedTwice`).
- The scrape time and elapsed seconds are passed in.

Each `for` and `while` loop of the source is a method, proved equal to a
function that specifies it. For example, the pattern loop of
`_parse_material_text` is `MaterialParser.ParseMaterialLoop`, proved equal to
`MaterialParser.ParseMaterialText`. The properties are proved about those
functions.

Some behaviours of the source are proved as stated, although they may be
surprising:
- The forward walk of `_extract_section_materials` enters containers. A list
  inside a `div` is therefore read twice (`Sections.ContainedListReadTwice`).
- The Loot table branch neither removes duplicate links nor filters special
  pages (`LinkDiscovery.TableKeepsRepeats`).
- Two material names can share a checkbox id
  (`Generator.MaterialIdsCollide`).
- With an empty delay list, a failed first attempt raises `IndexError` instead
  of retrying.
- The wrapper makes `max_retries + 1` calls. It re-raises the original
  exception unchanged; it does not wrap it in a retry-exhausted error.

## Model

| member | source | states |
|---|---|---|
| Retry.RetryBounds | scraper.py:31-38 | at most `max_retries + 1` calls, and none exactly when `max_retries` is negative; one sleep between consecutive calls, the i-th being `backoff_delays[i]`, or the last entry once the list is exhausted |
| Retry.RetryFromShape | scraper.py:31-41 | from any attempt: no call once past `max_retries`, otherwise between 1 and the remaining attempts, with one delay fewer than calls |
| Retry.RetryStopsAtFirstSuccess | scraper.py:31-33 | a returned value is the result of the last call made, and every earlier call raised |
| Retry.RetryReturnsFirstSuccess | scraper.py:31-38 | when attempt k is the first to succeed, the wrapper returns its value after exactly k + 1 calls |
| Retry.RetryReraisesLastFailure | scraper.py:34-41 | when every attempt raises, all `max_retries + 1` calls are made and the last error is re-raised |
| Retry.EmptyDelaysIndexError | scraper.py:35-36 | with an empty delay list, a failed first attempt that is not the last one ends the run with `IndexError` after one call |
| Retry.LastDelayReused | scraper.py:36 | past the end of the delay list, the last delay is used |
| Retry.RetryLoop | scraper.py:28-41 | the `for attempt in range(max_retries + 1)` loop computes exactly the specified run: the calls made, the delays slept and the ending |
| Catalog.Get | generator.py:55-58 | a key lookup fails exactly when no entry has the key; otherwise it returns the value of an entry with that key |
| Catalog.MaterialRoundTrip | scraper.py:68 | `asdict(m)` reads back as the same material |
| Catalog.MaterialsRoundTrip | scraper.py:68 | the materials list of `to_dict` reads back as the same list, in order |
| Catalog.ItemRoundTrip | scraper.py:62-69 | `to_dict` loses nothing: the dictionary reads back as the same name, category, URL and materials |
| Catalog.TotalItemsAppend | scraper.py:652 | the item count of a catalog is additive over its categories |
| Html.WithTagMembers | scraper.py:252 | filtering by tag keeps exactly the elements with a listed tag |
| Html.FindAllMembers | scraper.py:504 | `find_all` returns exactly the descendant elements with a listed tag |
| Html.Find | scraper.py:341-347 | `find` returns nothing exactly when `find_all` finds nothing, and otherwise the first element `find_all` finds |
| Html.FindMeaning | scraper.py:341-347 | `find` fails exactly when no descendant has a listed tag; otherwise it returns a descendant with a listed tag |
| Html.LocatedAreElements | scraper.py:474-484 | visiting elements with their following siblings visits the same elements, in the same order, as `find_all` |
| Text.StripIsTrimmedSlice | scraper.py:525 | `strip()` returns a slice of the input with only whitespace cut on either side, and the result neither starts nor ends with whitespace |
| Text.StripIdempotent | scraper.py:315 | stripping twice is stripping once |
| Text.StripKeepsAbsent | scraper.py:570-573 | stripping adds no character that was not there |
| Text.LowerPointwise | scraper.py:253 | `lower()` maps each character on its own and keeps the length |
| Text.ContainsIsOccurrence | scraper.py:255 | `kw in text` holds exactly when `kw` occurs at some position of `text` |
| Text.Split | scraper.py:539 | `split('\n')` gives at least one part, and no part contains the separator |
| Text.SplitJoin | scraper.py:539 | joining the parts of `split` with the separator gives the text back |
| Text.JoinSplit | scraper.py:539 | splitting parts joined by the separator gives the parts back, when no part contains it |
| Text.KeepStrippedClean | scraper.py:315 | the kept parts are non-empty and already stripped |
| Text.ReplaceChar | generator.py:164 | after replacing a character by a text that lacks it, the character is gone |
| Text.ReplaceCharAppend | generator.py:164 | `replace` of a concatenation is the concatenation of the replacements |
| Text.ReplaceCharSingle | generator.py:164 | on one character, `replace` gives the replacement for the pattern and keeps any other character |
| Text.ReplaceCharAbsent | generator.py:164 | `replace` leaves a text without the pattern unchanged |
| Text.RemoveAllPrefix | scraper.py:435 | removing the base URL from base + path gives the path, when the path does not contain the base |
| Text.RemoveAllAbsent | scraper.py:435 | `replace` changes nothing when the text does not contain the pattern |
| Text.NatToStringRoundTrip | scraper.py:572 | `int()` of a printed number gives the number back |
| Text.BelowIrreflexive | generator.py:159 | the string order used by `sorted` is irreflexive |
| Text.BelowTransitive | generator.py:159 | the string order is transitive |
| Text.BelowTotal | generator.py:159 | any two distinct strings are ordered one way or the other |
| MaterialParser.ParseQuantity | scraper.py:576-580 | `_parse_quantity` returns `None` exactly when the text holds no digit |
| MaterialParser.QuantityRoundTrip | scraper.py:576-580 | a number written after digit-free text and before a non-digit is read back |
| MaterialParser.QuantityExamples | scraper.py:576-580 | `"12 units"` gives 12 and `"x2 pending"` gives 2 |
| MaterialParser.SearchIsLeftmostLazy | scraper.py:565 | `re.search` on a name-first pattern succeeds exactly when some name position admits the pattern; it reports the leftmost start and, at that start, the shortest name, followed by its quantity group |
| MaterialParser.LazyNameComplete | scraper.py:557-561 | whenever some name length lets the rest of the pattern match, the lazy group finds a name |
| MaterialParser.MatchFromStart | scraper.py:565 | a match whose name starts at the first character, with no shorter name possible, is the one `re.search` reports |
| MaterialParser.LazyNameShortest | scraper.py:557-561 | the lazy group `(.+?)` reports the shortest name after which the rest of the pattern matches |
| MaterialParser.TryShapesFirst | scraper.py:564-572 | trying patterns in order: no result exactly when every pattern fails, and otherwise the result of the first one that matches |
| MaterialParser.FirstShapeWins | scraper.py:556-574 | `_parse_material_text` gives `(None, None)` exactly when none of the five patterns matches; otherwise it gives the stripped name and quantity of the first matching pattern in priority order |
| MaterialParser.ParseByShape | scraper.py:564-573 | when the higher-priority patterns fail and pattern k matches, the parse is pattern k's groups |
| MaterialParser.NoSeparatorNoMatch | scraper.py:557-561 | a text without `:` (or `(`, `-`, `x`/`X`) cannot match the corresponding pattern |
| MaterialParser.ParsedNameIsOneLine | scraper.py:557-573 | a parsed name never holds a newline, because `.` does not match one |
| MaterialParser.ColonRoundTrip | scraper.py:557 | `NAME: Q` followed by a non-digit parses back to the stripped name and Q |
| MaterialParser.ParenRoundTrip | scraper.py:558 | `NAME (Q)` parses back to the stripped name and Q when neither the name nor the text after it holds a colon |
| MaterialParser.TimesRoundTrip | scraper.py:559 | `NAME x Q` parses back to the stripped name and Q when there is no colon or parenthesis |
| MaterialParser.ColonExample | scraper.py:557-558 | `"Steel: 5 (rare)"` gives `("Steel", 5)`: the colon pattern outranks the parenthesis |
| MaterialParser.ParenExample | scraper.py:558 | `"Steel (5)"` gives `("Steel", 5)` |
| MaterialParser.TimesExample | scraper.py:559 | `"Polymer x3"` gives `("Polymer", 3)` |
| MaterialParser.ScrapExample | scraper.py:559 | `"Scrap x1"` gives `("Scrap", 1)` |
| MaterialParser.TimesBeforeRoundTrip | scraper.py:560-570 | `Q x NAME` parses back to the stripped name and Q, groups swapped, when there is no colon or parenthesis, the name starts with neither a space nor a digit, and no `x` of the name is followed by a number |
| MaterialParser.TimesBeforeExample | scraper.py:560-570 | `"3x Metal Parts"` gives `("Metal Parts", 3)` |
| MaterialParser.DashRoundTrip | scraper.py:561 | `NAME - Q` followed by a non-digit parses back to the stripped name and Q when there is no colon, parenthesis or `x` |
| MaterialParser.DashExample | scraper.py:561 | `"Steel - 5"` gives `("Steel", 5)` |
| MaterialParser.ParseMaterialLoop | scraper.py:564-574 | the pattern loop, returning at the first pattern that matches, computes `_parse_material_text` |
| Extractors.KeepParsed | scraper.py:528-529 | a parse is kept exactly when it produced a non-empty name, and it becomes a material with that name and quantity |
| Extractors.RowMaterial | scraper.py:507-515 | a row yields a material exactly when it has at least two cells, a non-empty first-cell text and a digit in the second cell; the name is the first cell's text and the quantity is `_parse_quantity` of the second cell's text |
| Extractors.DataRows | scraper.py:504-506 | the data rows are all the rows but the first, in order |
| Extractors.FilterMapMembers | scraper.py:524-529 | every kept material comes from some unit, and every unit that yields a material is kept |
| Extractors.TableMaterialsFromDataRows | scraper.py:501-517 | the header row never contributes; every material comes from a data row, and every data row that yields a material is kept |
| Extractors.ListMaterialsFromItems | scraper.py:519-531 | every list material is the parse of some `li`, with a non-empty name, and every `li` that parses to a named material is kept |
| Extractors.LineMaterials | scraper.py:539-542 | over any list of lines: each kept material is what one line parses to, with a non-empty, newline-free name, and every line that parses to a named material is kept |
| Extractors.TextMaterialsAreOneLine | scraper.py:533-544 | every text material comes from one line and has a non-empty, newline-free name, and every line that parses to a named material is kept |
| Extractors.CollectMaterials | scraper.py:506-515 | the extraction loop appends each unit's material in order: the filter-map of the units |
| Extractors.ExtractFromTable | scraper.py:501-517 | `_extract_from_table` computes the table's materials |
| Extractors.ExtractFromList | scraper.py:519-531 | `_extract_from_list` computes the list's materials |
| Extractors.ExtractFromText | scraper.py:533-544 | `_extract_from_text` computes the text's materials |
| Sections.FirstHeadingMeaning | scraper.py:251-262 | the heading search picks the first `h2`/`h3`/`h4`, in document order, whose lower-cased text contains a keyword; it finds none exactly when no heading does |
| Sections.NoSectionHeadingNoMaterials | scraper.py:261-262 | with no heading that mentions a keyword, the section yields no materials |
| Sections.SectionStartsAtFirstHeading | scraper.py:251-274 | the section is the walk over the elements after the first heading that mentions a keyword |
| Sections.LastContainingMeaning | scraper.py:295-299 | a column index is the last header cell containing the label, and is missing exactly when no header cell contains it |
| Sections.LastContainingSnoc | scraper.py:295-299 | each header cell that contains the label overwrites the index |
| Sections.HeadingHalts | scraper.py:278-279 | a heading ends the walk and contributes nothing |
| Sections.WalkStopsAtHeading | scraper.py:272-279 | nothing after the next heading is read |
| Sections.HaltingAtFirstHalt | scraper.py:273-332 | the first step that ends the walk is the last one to contribute |
| Sections.LabeledTableEndsWalk | scraper.py:281-332 | a table whose header labels a recycling or salvaging column ends the walk; its data rows are the last materials collected |
| Sections.WalkAppend | scraper.py:273-353 | a walk over two stretches, the first with no stop, collects the first stretch's materials and then the second's |
| Sections.ContainedListReadTwice | scraper.py:336-353 | a list inside a `div` contributes its materials twice: through the container and again when the walk reaches it |
| Sections.RecyclingKeywordsColumn | scraper.py:229-230 | the recycling keyword list asks for the recycling column only |
| Sections.SalvagingKeywordsColumn | scraper.py:306-307 | the salvaging keyword list asks for the salvaging column only |
| Sections.RecyclingReadsOnlyRecyclingColumn | scraper.py:309-329 | with the recycling keywords, a labeled row contributes only its recycling cell |
| Sections.SalvagingReadsOnlySalvagingColumn | scraper.py:309-329 | with the salvaging keywords, a labeled row contributes only its salvaging cell |
| Sections.LabeledRowsAppend | scraper.py:309-329 | the rows' materials are the concatenation of each row's, in order |
| Sections.FirstRecyclingHeadingFrom | scraper.py:474-478 | the chosen heading is the first whose text contains both "recycled" and "salvaged"; none is chosen exactly when no heading does |
| Sections.SiblingWalkStopsAtHeading | scraper.py:484-497 | the sibling walk reads nothing after the next heading sibling |
| Sections.FindSectionHeading | scraper.py:251-262 | the heading loops compute the first heading that mentions a keyword |
| Sections.FindLabeledColumns | scraper.py:291-299 | the header loop computes the last recycling and the last salvaging column |
| Sections.ExtractCell | scraper.py:313-320 | the parts loop of a results cell computes the cell's materials |
| Sections.ExtractLabeledRow | scraper.py:310-329 | one data row yields its recycling cell, then its salvaging cell, as wanted |
| Sections.ExtractLabeledRows | scraper.py:309-329 | the data-row loop computes the labeled table's materials |
| Sections.VisitNode | scraper.py:278-353 | one step of the walk: a heading halts, a labeled table halts with its rows, lists and containers contribute, and anything else contributes nothing |
| Sections.WalkForward | scraper.py:272-355 | the `find_next()` loop computes the walk from the element after the heading |
| Sections.ExtractSectionMaterials | scraper.py:246-355 | `_extract_section_materials` computes the section's materials |
| Sections.VisitSibling | scraper.py:488-495 | a table, list, or `div`/`p` sibling contributes through its extractor; other siblings contribute nothing |
| Sections.WalkSiblings | scraper.py:484-497 | the `find_next_sibling()` loop computes the sibling walk |
| Sections.ExtractRecyclingData | scraper.py:456-499 | `extract_recycling_data` computes the recycling data of the page |
| Items.TagAll | scraper.py:237-242 | every salvaging material is renamed with the `(Salvage) ` prefix; quantities and order are unchanged |
| Items.UntagTagged | scraper.py:242 | a tagged material is recognised as tagged, and untagging gives it back |
| Items.ProvenanceOfTagged | scraper.py:237-242 | the tagged entries alone split back into exactly the salvaging materials |
| Items.ProvenanceRoundTrip | scraper.py:234-242 | the combined list splits back into both lists when no recycling name already starts with the prefix |
| Items.MergedLayout | scraper.py:234-242 | the recycling materials come first, unchanged, followed by one tagged entry per salvaging material |
| Items.MergeMaterials | scraper.py:234-242 | the two append loops compute the merged list |
| Items.LootItemSections | scraper.py:215-244 | a loot item keeps its link's name, category and URL, and its materials split back into the page's recycling and salvaging sections |
| Items.ScrapeLootItem | scraper.py:228-244 | `_scrape_loot_item`, after the fetch, computes the loot item |
| LinkDiscovery.LinksFromMembers | scraper.py:426-451 | an entry is made for a link exactly when the link is a candidate with a non-empty text and its URL has not been seen before |
| LinkDiscovery.LinksFromDistinct | scraper.py:440-443 | no entry repeats a URL, and none has a URL already seen |
| LinkDiscovery.CategoryLinksMeaning | scraper.py:426-451 | a category page yields one entry per distinct item URL, with a non-empty name and the category's name; entry p is built from link idx[p], where idx lists, in increasing page order, exactly the links that are candidates with a non-empty text whose URL no earlier candidate had |
| LinkDiscovery.KeptIndicesEntries | scraper.py:437-451 | the p-th entry of the link loop is built from the p-th kept link, which is a candidate with a non-empty text and the first with its URL |
| LinkDiscovery.KeptIndicesAscend | scraper.py:427 | the kept links are listed in page order |
| LinkDiscovery.KeptIndicesComplete | scraper.py:437-443 | every link that is a candidate with a non-empty text and the first with its URL is kept |
| LinkDiscovery.DiscoverCategoryLinks | scraper.py:426-451 | the link loop of `_scrape_category_with_retry` computes the category links |
| LinkDiscovery.TableLinksMembers | scraper.py:140-158 | the table candidates are exactly the first-column links of the rows that are under `/wiki/` |
| LinkDiscovery.FallbackLinksKept | scraper.py:159-171 | each kept link is an item link of the page whose `href` was not already seen |
| LinkDiscovery.FallbackLinksDistinct | scraper.py:166-169 | no `href` is kept twice |
| LinkDiscovery.FallbackLinksComplete | scraper.py:159-171 | every item link's `href` is kept |
| LinkDiscovery.FallbackLinksMeaning | scraper.py:159-171 | without a table, the kept links are, in page order, exactly the first link of the page for each distinct item `href`; so one link is kept per item `href` |
| LinkDiscovery.FallbackIndicesEntries | scraper.py:163-171 | the p-th kept link is the link at idx[p], an item link that is the first with its `href` |
| LinkDiscovery.FallbackIndicesAscend | scraper.py:163 | the fallback scan keeps links in page order |
| LinkDiscovery.FallbackIndicesComplete | scraper.py:164-169 | every item link that is the first with its `href` is kept |
| LinkDiscovery.TableKeepsRepeats | scraper.py:140-158 | the table branch keeps a repeated link and a special-page link: the same file link in two rows becomes two candidates |
| LinkDiscovery.LootNamesNonEmpty | scraper.py:174-183 | every loot candidate gets a non-empty name (its text, or its URL when the text is empty) and the category `Loot` |
| LinkDiscovery.SelectTableLinks | scraper.py:143-158 | the row loop computes the table candidates |
| LinkDiscovery.SelectFallbackLinks | scraper.py:162-171 | the fallback loop, with its `seen` set, computes the fallback candidates |
| LinkDiscovery.SelectLootLinks | scraper.py:135-171 | `link_candidates` comes from the first table's rows after the header, or from the fallback scan when there is no table |
| Aggregator.FirstReturned | scraper.py:31-33 | when some attempt succeeds, the retried fetch returns a value |
| Aggregator.CategoryScrapeOutcome | scraper.py:386-405 | a category fails exactly when all four fetches raise; it then has no links and a failure naming the category, its URL and the last error |
| Aggregator.CategoryLinksCategory | scraper.py:447-451 | every link of a category carries the category's name |
| Aggregator.ItemScrapeOutcome | scraper.py:582-623 | an item page always yields its item under the link's name, category and URL; it fails exactly when all four fetches raise, and then has no materials and a failure naming the item |
| Aggregator.CrawlKeepsEveryCategory | scraper.py:643-654 | every category is a key of the result, in order, even when its page failed; its items carry its name, one per link |
| Aggregator.FailedCategoryIsEmpty | scraper.py:643-654 | a category whose page failed has no items |
| Aggregator.CategoryFailuresNameCategories | scraper.py:643-645 | there is at most one failure per category, and each names a crawled category and its URL |
| Aggregator.ItemsCountLinks | scraper.py:640-662 | the items held number the links the category pages yield, one item per link, whether or not the item page was fetched |
| Aggregator.ItemFailuresAtMostLinks | scraper.py:648-652 | there is at most one item failure per discovered link |
| Aggregator.CrawlMetadataCounts | scraper.py:656-666 | `total_items` is the number of links the seven category pages yield, `failed_items` is at most that, `categories_count` is 7 and equals the number of keys, and there are at most seven category failures |
| Aggregator.LootItemsAccountForCandidates | scraper.py:174-192 | every loot candidate becomes exactly one item or one failure |
| Aggregator.LootRepeatFetchedTwice | scraper.py:174-192 | a link listed twice is fetched twice; when the first fetch fails and the second succeeds, the result is one failure and one item |
| Aggregator.LootItemsShape | scraper.py:174-192 | every kept loot item is in the `Loot` category and has a non-empty name |
| Aggregator.WikiScraper.constructor | scraper.py:85-111 | a new scraper has the base URL and empty failure lists |
| Aggregator.WikiScraper.ScrapeCategory | scraper.py:386-454 | returns the category's links and appends its failure, if any, to `failed_categories`; nothing else changes |
| Aggregator.WikiScraper.ScrapeItemPage | scraper.py:582-623 | returns the item and appends its failure, if any, to `failed_items`; nothing else changes |
| Aggregator.WikiScraper.ScrapeItems | scraper.py:648-652 | the item loop returns one item per link and appends the item failures in order |
| Aggregator.WikiScraper.ScrapeAllCategories | scraper.py:625-679 | both failure lists are reset; the result is the crawl of the seven categories in order with its metadata, and the failure lists are exactly the crawl's failures |
| Aggregator.WikiScraper.ScrapeLoot | scraper.py:113-213 | a failed Loot page is re-raised; otherwise the result holds the `Loot` items whose pages were fetched, the others are appended to `failed_items`, and the metadata counts both lists |
| Generator.FirstErrorMeaning | generator.py:62-78 | checking in order reports nothing exactly when every element passes; otherwise it reports the first element's error |
| Generator.FirstErrorAt | generator.py:62-78 | when element i fails and every earlier one passes, its error is the one reported |
| Generator.ItemErrorMeaning | generator.py:67-78 | an item passes exactly when it is a dictionary with `name`, `url` and a list of `materials` |
| Generator.CategoryErrorMeaning | generator.py:62-78 | a category passes exactly when it is a list of valid items |
| Generator.ValidateMeaning | generator.py:50-78 | the ordered checks raise nothing exactly when the document is a dictionary, its metadata (if any) is a dictionary, and it has a `categories` dictionary of lists of valid items |
| Generator.LoadedDataHasSchema | generator.py:40-88 | `load_data` succeeds exactly on a parsed document with the schema, and returns it unchanged; a missing file raises `FileNotFoundError` with its path |
| Generator.MissingFieldNamesFirst | generator.py:71-74 | an item missing a required field is reported by the first missing field in the order name, url, materials |
| Generator.ItemToJsonValid | generator.py:67-78 | every item the scraper writes passes the item checks |
| Generator.ScrapedCatalogLoads | generator.py:27-82 | every catalog the scraper writes loads unchanged |
| Generator.MetadataOptional | generator.py:51 | adding a metadata dictionary does not change what the checks decide, and the version read defaults to `1.0` |
| Generator.GatherDefined | generator.py:151-156 | the name set can be gathered exactly when every element has names |
| Generator.GatherMembers | generator.py:151-156 | the gathered set holds exactly the elements' names |
| Generator.ItemNamesMeaning | generator.py:153-156 | an item's name set holds exactly the names of its materials |
| Generator.CategoryNamesMeaning | generator.py:152-156 | a category's name set holds exactly the material names of its items |
| Generator.AllNamesMeaning | generator.py:151-156 | `materials_set` holds exactly the names of all materials of all items of all categories |
| Generator.ItemNamesDefined | generator.py:155-156 | for a valid item, its names can be gathered exactly when every material has a string name |
| Generator.CategoryNamesDefined | generator.py:154-156 | for a valid category, its names can be gathered exactly when every material of every item has a string name |
| Generator.CategoriesNamesDefined | generator.py:153-156 | for valid categories, the names can be gathered exactly when every material has a string name |
| Generator.AllNamesDefined | generator.py:151-156 | for a loaded document, the names can be gathered exactly when every material has a string name |
| Generator.LeastOf | generator.py:159 | a non-empty set of names has a least element |
| Generator.StrictlySortedUnique | generator.py:159 | two strictly ascending lists with the same members are equal |
| Generator.SortNames | generator.py:159 | `sorted(materials_set)` lists each name once, in strictly ascending order |
| Generator.MaterialIdShape | generator.py:164 | a checkbox id starts with `material-` and holds no space and no `&` |
| Generator.MaterialIdsCollide | generator.py:164 | ids are not unique: `&` and `and`, or `A B` and `a-b`, give the same id |
| Generator.CheckboxesUnique | generator.py:159-172 | the filter list for a set of names is unique |
| Generator.HTMLGenerator.constructor | generator.py:23-24 | a new generator has its path and no data |
| Generator.HTMLGenerator.CheckFields | generator.py:71-74 | the field loop reports the first missing required field |
| Generator.HTMLGenerator.CheckItems | generator.py:67-78 | the item loop reports the first item's error |
| Generator.HTMLGenerator.LoadData | generator.py:27-88 | `load_data` returns the document or the first error, in the source's order, and keeps the document in `data` only when every check passes |
| Generator.HTMLGenerator.CollectMaterialNames | generator.py:155-156 | the innermost loop gathers the names of an item's materials |
| Generator.HTMLGenerator.CollectItemNames | generator.py:154-156 | the item loop gathers the names of a category's items |
| Generator.HTMLGenerator.CollectCategoryNames | generator.py:153-156 | the category loop gathers every material name |
| Generator.HTMLGenerator.GenerateCheckboxes | generator.py:143-174 | fails exactly when the names cannot be gathered; otherwise yields one checkbox per distinct material name, in ascending order, each with its slug id |

## Left out

- HTTP fetching is not modelled: the session, `raise_for_status`, timeouts, the `User-Agent` header and `api_url`. A fetch is a parameter that yields the page or an error text.
- Parsing HTML into a tree is not modelled, including the `mw-parser-output` content lookup and the `href=True` attribute filters. Category and Loot pages arrive as their collected links.
- `_rate_limit_wait`, `last_request_time` and `time.sleep` are left out because they are wall-clock effects. The retry model records the delays it would sleep.
- `time.time()`, `time.strftime` and `round(elapsed, 2)` are left out: the scrape time and the elapsed seconds are parameters.
- Logging is left out: every `logger` call has no effect on results.
- `save_to_json`, `save_to_python_module`, `main.py` and `create_sample_data.py` are left out: they are file output and command-line plumbing outside the extraction and loading core.
- The page templating of the generator (`generate_html`, the table and CSS/JS text) is left out. The filter list is modelled as its checkboxes, without the HTML text around them.
- `\d` is modelled as the ASCII digits and `lower()` as ASCII case mapping. Python's Unicode digits and case tables are not modelled.
- JSON dictionaries are modelled as ordered lists of entries. Their keys are assumed distinct, as they are after `json.load`; a lookup returns the last entry.
- The `except Exception` fallback of the table branch of `_extract_section_materials` is left out. Nothing in that branch can raise in the model.
- `scrape_loot`'s default `loot_url` is left out: the Loot page arrives as a fetch outcome. Its loot item pages are fetched once each, without retry, as in the source.
- The `version` read by `load_data` only feeds a log line. It is modelled (`Generator.Version`) but never used.
- Generator.HTMLGenerator.GenerateCheckboxes: reports one error text for every failure, where the source raises `TypeError`, `KeyError` or `AttributeError` depending on the malformed material.
- The `None` that the retry wrapper returns when `max_retries` is negative cannot arise with the fixed three retries. Category and item scrapes map it to an empty result with no failure.
- `load_data` re-raises any other error met while opening or decoding the file after its existence check, such as `PermissionError` or `UnicodeDecodeError`. The file arrives as missing, malformed or parsed, so those errors are not modelled.
- `int()` raises `ValueError` on a digit string longer than CPython's integer string limit, which would make the scrape retry or fail. Numbers are unbounded in the model, so this is not modelled.
