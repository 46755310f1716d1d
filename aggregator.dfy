/**
 * `WikiScraper`: the crawl over the seven item categories
 * (`scrape_all_categories`, with `scrape_category` and `scrape_item_page`
 * retrying their fetches and recording what still fails) and the crawl of
 * the Loot page (`scrape_loot`).  What the network returns is a parameter:
 * for each fetch, named by its place in the crawl (the category's position,
 * the link's position, the attempt number), what it yields (the page's
 * links, or its parsed document) or the error it raises.  Two fetches of
 * the same URL are two calls and may yield different outcomes.  The clock readings
 * (`scraped_at`, `elapsed_seconds`) are parameters too.
 */
module Aggregator {
  import opened Wrappers
  import opened Html
  import opened Catalog
  import opened Sections
  import opened Retry
  import opened LinkDiscovery
  import opened Items
  import opened Seqs

  /** `WikiScraper.CATEGORIES`, in insertion order. */
  const Categories: seq<(string, string)> := [
    ("Weapons", "https://arcraiders.wiki/wiki/Weapons"),
    ("Augments", "https://arcraiders.wiki/wiki/Augments"),
    ("Shields", "https://arcraiders.wiki/wiki/Shields"),
    ("Healing", "https://arcraiders.wiki/wiki/Healing"),
    ("Quick Use", "https://arcraiders.wiki/wiki/Quick_Use"),
    ("Grenades", "https://arcraiders.wiki/wiki/Grenades"),
    ("Traps", "https://arcraiders.wiki/wiki/Traps")]

  const DefaultBaseUrl: string := "https://arcraiders.wiki"

  /** The retry policy of both `_scrape_category_with_retry` and `_scrape_item_with_retry`. */
  const MaxRetries: int := 3
  const BackoffDelays: seq<real> := [1.0, 2.0, 4.0]

  const Version: string := "1.0"
  const LootCategory: string := "Loot"

  /** `str(e)` of the `IndexError` raised by `backoff_delays[-1]` on an empty list. */
  const IndexErrorText: string := "list index out of range"

  /** By the category's position, then the attempt number: what a fetch of a category page yields. */
  type CategoryPages = nat -> nat -> Outcome<seq<Anchor>>

  /** By the category's position, the link's position in it, then the attempt: what a fetch of an item page yields. */
  type ItemPages = nat -> nat -> nat -> Outcome<seq<Node>>

  function FailureList(f: Option<Failure>): seq<Failure> {
    match f
    case Some(x) => [x]
    case None => []
  }

  /** What a retried fetch that did not return a value failed with, as `str(e)`. */
  function ErrorText<T>(e: Ending<T>): string {
    match e
    case Reraised(msg) => msg
    case IndexError => IndexErrorText
    case _ => []
  }

  // ---------------------------------------------------------------------
  // One category, one item.
  // ---------------------------------------------------------------------

  datatype CategoryResult = CategoryResult(links: seq<ItemInfo>, failure: Option<Failure>)

  /**
   * `scrape_category`: the links of the first fetch that succeeds; when the
   * retries are used up, no links and a failure record.
   */
  function CategoryScrape(base: string, name: string, url: string, fetch: nat -> Outcome<seq<Anchor>>): CategoryResult {
    match RetryWithBackoff(MaxRetries, BackoffDelays, fetch).ending
    case Value(anchors) => CategoryResult(CategoryLinks(anchors, base, name, url), None)
    case NoAttempt => CategoryResult([], None)
    case e => CategoryResult([], Some(Failure(name, url, ErrorText(e))))
  }

  datatype ItemResult = ItemResult(item: Item, failure: Option<Failure>)

  /**
   * `scrape_item_page`: the item with the recycling data of the first fetch
   * that succeeds; when the retries are used up, the item with no materials
   * and a failure record.
   */
  function ItemScrape(info: ItemInfo, fetch: nat -> Outcome<seq<Node>>): ItemResult {
    match RetryWithBackoff(MaxRetries, BackoffDelays, fetch).ending
    case Value(doc) => ItemResult(Item(info.name, info.category, info.url, RecyclingData(doc)), None)
    case NoAttempt => ItemResult(Item(info.name, info.category, info.url, []), None)
    case e => ItemResult(Item(info.name, info.category, info.url, []), Some(Failure(info.name, info.url, ErrorText(e))))
  }

  /** With three retries some fetch is always attempted, so the wrapper never returns `None`. */
  lemma RetriesAlwaysAttempt<T>(fetch: nat -> Outcome<T>)
    ensures RetryWithBackoff(MaxRetries, BackoffDelays, fetch).ending != NoAttempt
    ensures RetryWithBackoff(MaxRetries, BackoffDelays, fetch).calls <= 4
  {
    RetryBounds(MaxRetries, BackoffDelays, fetch);
  }

  /**
   * A category either yields its links and no failure, or yields no links
   * and a failure naming the category, its URL and the last fetch's error
   * (after all four attempts failed).
   */
  lemma CategoryScrapeOutcome(base: string, name: string, url: string, fetch: nat -> Outcome<seq<Anchor>>)
    ensures var r := CategoryScrape(base, name, url, fetch);
      r.failure.Some? ==> r.links == [] && r.failure.value.name == name && r.failure.value.url == url
    ensures (forall k | 0 <= k <= MaxRetries :: fetch(k).Raised?) <==> CategoryScrape(base, name, url, fetch).failure.Some?
    ensures (forall k | 0 <= k <= MaxRetries :: fetch(k).Raised?) ==>
      CategoryScrape(base, name, url, fetch).failure == Some(Failure(name, url, fetch(MaxRetries).error))
  {
    RetriesAlwaysAttempt(fetch);
    if forall k | 0 <= k <= MaxRetries :: fetch(k).Raised? {
      RetryReraisesLastFailure(MaxRetries, BackoffDelays, fetch, 0);
    } else {
      var k :| 0 <= k <= MaxRetries && !fetch(k).Raised?;
      FirstReturned(fetch, k);
    }
  }

  /** The earliest successful attempt up to `k`, when attempt `k` succeeds. */
  lemma {:induction false} FirstReturned<T>(fetch: nat -> Outcome<T>, k: nat)
    requires k <= MaxRetries && fetch(k).Returned?
    ensures RetryWithBackoff(MaxRetries, BackoffDelays, fetch).ending.Value?
    decreases k
  {
    if forall j | 0 <= j < k :: fetch(j).Raised? {
      RetryReturnsFirstSuccess(MaxRetries, BackoffDelays, fetch, 0, k);
    } else {
      var j :| 0 <= j < k && !fetch(j).Raised?;
      FirstReturned(fetch, j);
    }
  }

  /**
   * An item page always yields its item, under the link's name, category and
   * URL; a failed one yields no materials and a failure naming the item.
   */
  lemma ItemScrapeOutcome(info: ItemInfo, fetch: nat -> Outcome<seq<Node>>)
    ensures var r := ItemScrape(info, fetch);
      && r.item.name == info.name && r.item.category == info.category && r.item.url == info.url
      && (r.failure.Some? ==> r.item.materials == [] && r.failure.value.name == info.name && r.failure.value.url == info.url)
    ensures (forall k | 0 <= k <= MaxRetries :: fetch(k).Raised?) <==> ItemScrape(info, fetch).failure.Some?
  {
    RetriesAlwaysAttempt(fetch);
    if forall k | 0 <= k <= MaxRetries :: fetch(k).Raised? {
      RetryReraisesLastFailure(MaxRetries, BackoffDelays, fetch, 0);
    } else {
      var k :| 0 <= k <= MaxRetries && !fetch(k).Raised?;
      FirstReturned(fetch, k);
    }
  }

  // ---------------------------------------------------------------------
  // The crawl over all categories.
  // ---------------------------------------------------------------------

  /** The item `scrape_item_page` returns for the link at a position, given the fetches of each position. */
  function ItemEntry(fetches: nat -> nat -> Outcome<seq<Node>>): ((nat, ItemInfo)) -> Item {
    (l: (nat, ItemInfo)) => ItemScrape(l.1, fetches(l.0)).item
  }

  /** The failure `scrape_item_page` records for the link at a position, if any. */
  function ItemFailure(fetches: nat -> nat -> Outcome<seq<Node>>): ((nat, ItemInfo)) -> seq<Failure> {
    (l: (nat, ItemInfo)) => FailureList(ItemScrape(l.1, fetches(l.0)).failure)
  }

  function ItemsOf(links: seq<ItemInfo>, fetches: nat -> nat -> Outcome<seq<Node>>): seq<Item> {
    Map(Enumerate(links), ItemEntry(fetches))
  }

  function ItemFailuresOf(links: seq<ItemInfo>, fetches: nat -> nat -> Outcome<seq<Node>>): seq<Failure> {
    FlatMap(Enumerate(links), ItemFailure(fetches))
  }

  /** The links `scrape_category` returns for the category at a position. */
  function CategoryLinksOf(base: string, catPages: CategoryPages, cat: (nat, (string, string))): seq<ItemInfo> {
    CategoryScrape(base, cat.1.0, cat.1.1, catPages(cat.0)).links
  }

  /** A category's entry in the `categories` dictionary. */
  function CategoryEntry(base: string, catPages: CategoryPages, itemPages: ItemPages): ((nat, (string, string))) -> (string, seq<Item>) {
    (cat: (nat, (string, string))) => (cat.1.0, ItemsOf(CategoryLinksOf(base, catPages, cat), itemPages(cat.0)))
  }

  function CategoryFailure(base: string, catPages: CategoryPages): ((nat, (string, string))) -> seq<Failure> {
    (cat: (nat, (string, string))) => FailureList(CategoryScrape(base, cat.1.0, cat.1.1, catPages(cat.0)).failure)
  }

  function CategoryItemFailures(base: string, catPages: CategoryPages, itemPages: ItemPages): ((nat, (string, string))) -> seq<Failure> {
    (cat: (nat, (string, string))) => ItemFailuresOf(CategoryLinksOf(base, catPages, cat), itemPages(cat.0))
  }

  /** The `categories` dictionary of the crawl: every category, in order, with the items of its links. */
  function CrawlCategories(cats: seq<(string, string)>, base: string, catPages: CategoryPages, itemPages: ItemPages): seq<(string, seq<Item>)> {
    Map(Enumerate(cats), CategoryEntry(base, catPages, itemPages))
  }

  function CrawlCategoryFailures(cats: seq<(string, string)>, base: string, catPages: CategoryPages): seq<Failure> {
    FlatMap(Enumerate(cats), CategoryFailure(base, catPages))
  }

  function CrawlItemFailures(cats: seq<(string, string)>, base: string, catPages: CategoryPages, itemPages: ItemPages): seq<Failure> {
    FlatMap(Enumerate(cats), CategoryItemFailures(base, catPages, itemPages))
  }

  /** The dictionary `scrape_all_categories` returns. */
  function CrawlCatalog(base: string, catPages: CategoryPages, itemPages: ItemPages, scrapedAt: string, elapsed: real): Catalog {
    var categories := CrawlCategories(Categories, base, catPages, itemPages);
    Catalog(categories, Metadata(
      Version, scrapedAt, TotalItems(categories), |Categories|, elapsed,
      |CrawlCategoryFailures(Categories, base, catPages)|,
      |CrawlItemFailures(Categories, base, catPages, itemPages)|))
  }

  /**
   * Every category is a key of the result, in order, even when its page
   * failed; its items carry its name and come from its page's links, one per
   * link.
   */
  lemma CrawlKeepsEveryCategory(cats: seq<(string, string)>, base: string, catPages: CategoryPages, itemPages: ItemPages)
    ensures |CrawlCategories(cats, base, catPages, itemPages)| == |cats|
    ensures forall k | 0 <= k < |cats| ::
      && CrawlCategories(cats, base, catPages, itemPages)[k].0 == cats[k].0
      && |CrawlCategories(cats, base, catPages, itemPages)[k].1| == |CategoryScrape(base, cats[k].0, cats[k].1, catPages(k)).links|
      && forall it | it in CrawlCategories(cats, base, catPages, itemPages)[k].1 :: it.category == cats[k].0
  {
    forall k | 0 <= k < |cats|
      ensures CrawlCategories(cats, base, catPages, itemPages)[k].0 == cats[k].0
      ensures |CrawlCategories(cats, base, catPages, itemPages)[k].1| == |CategoryScrape(base, cats[k].0, cats[k].1, catPages(k)).links|
      ensures forall it | it in CrawlCategories(cats, base, catPages, itemPages)[k].1 :: it.category == cats[k].0
    {
      var links := CategoryLinksOf(base, catPages, (k, cats[k]));
      assert CrawlCategories(cats, base, catPages, itemPages)[k] == (cats[k].0, ItemsOf(links, itemPages(k)));
      CategoryLinksCategory(base, cats[k].0, cats[k].1, catPages(k));
      var items := ItemsOf(links, itemPages(k));
      forall it | it in items ensures it.category == cats[k].0 {
        var j :| 0 <= j < |items| && items[j] == it;
        assert it == ItemScrape(links[j], itemPages(k)(j)).item;
        ItemScrapeOutcome(links[j], itemPages(k)(j));
        assert links[j] in links;
      }
    }
  }

  lemma CategoryLinksCategory(base: string, name: string, url: string, fetch: nat -> Outcome<seq<Anchor>>)
    ensures forall x | x in CategoryScrape(base, name, url, fetch).links :: x.category == name
  {
    match RetryWithBackoff(MaxRetries, BackoffDelays, fetch).ending
    case Value(anchors) => CategoryLinksMeaning(anchors, base, name, url);
    case _ =>
  }

  /** A category whose page failed has no items. */
  lemma FailedCategoryIsEmpty(cats: seq<(string, string)>, base: string, catPages: CategoryPages, itemPages: ItemPages, k: nat)
    requires k < |cats| && CategoryScrape(base, cats[k].0, cats[k].1, catPages(k)).failure.Some?
    ensures CrawlCategories(cats, base, catPages, itemPages)[k].1 == []
  {
    CategoryScrapeOutcome(base, cats[k].0, cats[k].1, catPages(k));
    assert CrawlCategories(cats, base, catPages, itemPages)[k] == (cats[k].0, ItemsOf(CategoryLinksOf(base, catPages, (k, cats[k])), itemPages(k)));
  }

  /** Each category failure names one of the crawled categories, and there is at most one per category. */
  lemma CategoryFailuresNameCategories(cats: seq<(string, string)>, base: string, catPages: CategoryPages)
    ensures |CrawlCategoryFailures(cats, base, catPages)| <= |cats|
    ensures forall f | f in CrawlCategoryFailures(cats, base, catPages) :: exists k | 0 <= k < |cats| :: f.name == cats[k].0 && f.url == cats[k].1
  {
    var es := Enumerate(cats);
    var g := CategoryFailure(base, catPages);
    forall k | 0 <= k < |es| ensures |g(es[k])| <= 1 {
      assert g(es[k]) == FailureList(CategoryScrape(base, cats[k].0, cats[k].1, catPages(k)).failure);
    }
    FlatMapAtMostOne(es, g);
    FlatMapMembers(es, g);
    forall f | f in CrawlCategoryFailures(cats, base, catPages) ensures exists k | 0 <= k < |cats| :: f.name == cats[k].0 && f.url == cats[k].1 {
      var k :| 0 <= k < |es| && f in g(es[k]);
      CategoryScrapeOutcome(base, cats[k].0, cats[k].1, catPages(k));
    }
  }

  /** The number of links the category pages of `cats` yield, summed over the categories. */
  function LinkCount(cats: seq<(string, string)>, base: string, catPages: CategoryPages): nat {
    if cats == [] then 0
    else
      var k := |cats| - 1;
      LinkCount(cats[..k], base, catPages) + |CategoryScrape(base, cats[k].0, cats[k].1, catPages(k)).links|
  }

  /** Each link becomes one item, whether or not its page was fetched: the items held number the links found. */
  lemma {:induction false} ItemsCountLinks(cats: seq<(string, string)>, base: string, catPages: CategoryPages, itemPages: ItemPages)
    ensures TotalItems(CrawlCategories(cats, base, catPages, itemPages)) == LinkCount(cats, base, catPages)
  {
    if cats != [] {
      var k := |cats| - 1;
      var f := CategoryEntry(base, catPages, itemPages);
      ItemsCountLinks(cats[..k], base, catPages, itemPages);
      EnumeratePrefix(cats, k);
      MapSnoc(Enumerate(cats), k, f);
      PrefixAll(Enumerate(cats));
      var entry := f(Enumerate(cats)[k]);
      assert CrawlCategories(cats, base, catPages, itemPages) == CrawlCategories(cats[..k], base, catPages, itemPages) + [entry];
      TotalItemsAppend(CrawlCategories(cats[..k], base, catPages, itemPages), [entry]);
      assert TotalItems([entry]) == |entry.1|;
    }
  }

  /** There is at most one item failure per link. */
  lemma {:induction false} ItemFailuresAtMostLinks(cats: seq<(string, string)>, base: string, catPages: CategoryPages, itemPages: ItemPages)
    ensures |CrawlItemFailures(cats, base, catPages, itemPages)| <= LinkCount(cats, base, catPages)
  {
    if cats != [] {
      var k := |cats| - 1;
      var g := CategoryItemFailures(base, catPages, itemPages);
      ItemFailuresAtMostLinks(cats[..k], base, catPages, itemPages);
      EnumeratePrefix(cats, k);
      FlatMapSnoc(Enumerate(cats), k, g);
      PrefixAll(Enumerate(cats));
      var links := CategoryLinksOf(base, catPages, (k, cats[k]));
      var es := Enumerate(links);
      var h := ItemFailure(itemPages(k));
      forall j | 0 <= j < |es| ensures |h(es[j])| <= 1 {
        assert h(es[j]) == FailureList(ItemScrape(links[j], itemPages(k)(j)).failure);
      }
      FlatMapAtMostOne(es, h);
      assert g(Enumerate(cats)[k]) == ItemFailuresOf(links, itemPages(k));
    }
  }

  /**
   * The metadata counts what the crawl found: one item per discovered link,
   * at most one item failure per link, the seven categories, and at most one
   * failure per category.
   */
  lemma CrawlMetadataCounts(base: string, catPages: CategoryPages, itemPages: ItemPages, scrapedAt: string, elapsed: real)
    ensures var c := CrawlCatalog(base, catPages, itemPages, scrapedAt, elapsed);
      && c.metadata.totalItems == LinkCount(Categories, base, catPages)
      && c.metadata.failedItems <= c.metadata.totalItems
      && c.metadata.categoriesCount == 7 == |c.categories|
      && c.metadata.failedCategories <= 7
  {
    CrawlKeepsEveryCategory(Categories, base, catPages, itemPages);
    CategoryFailuresNameCategories(Categories, base, catPages);
    ItemsCountLinks(Categories, base, catPages, itemPages);
    ItemFailuresAtMostLinks(Categories, base, catPages, itemPages);
  }

  // ---------------------------------------------------------------------
  // The Loot crawl.
  // ---------------------------------------------------------------------

  /** By the candidate's position: what fetching its loot item page (once, without retry) yields. */
  type LootPages = nat -> Outcome<seq<Node>>

  /** What `scrape_loot` does with one candidate link, given what its fetch yielded: the item, or the failure record. */
  function LootOutcome(base: string, fetched: Outcome<seq<Node>>, a: Anchor): ItemResult {
    var info := LootInfo(base, a);
    match fetched
    case Returned(doc) => ItemResult(LootItem(info, doc), None)
    case Raised(e) => ItemResult(Item(info.name, info.category, info.url, []), Some(Failure(info.name, info.url, e)))
  }

  function LootKept(base: string, pages: LootPages): ((nat, Anchor)) -> seq<Item> {
    (c: (nat, Anchor)) =>
      var r := LootOutcome(base, pages(c.0), c.1);
      if r.failure.None? then [r.item] else []
  }

  function LootFailure(base: string, pages: LootPages): ((nat, Anchor)) -> seq<Failure> {
    (c: (nat, Anchor)) => FailureList(LootOutcome(base, pages(c.0), c.1).failure)
  }

  /** The loot items kept: those whose page was fetched. */
  function LootItems(cands: seq<Anchor>, base: string, pages: LootPages): seq<Item> {
    FlatMap(Enumerate(cands), LootKept(base, pages))
  }

  function LootFailures(cands: seq<Anchor>, base: string, pages: LootPages): seq<Failure> {
    FlatMap(Enumerate(cands), LootFailure(base, pages))
  }

  /** Every candidate is either kept as an item or recorded as a failure, never both. */
  lemma {:induction false} LootItemsAccountForCandidates(cands: seq<Anchor>, base: string, pages: LootPages)
    ensures |LootItems(cands, base, pages)| + |LootFailures(cands, base, pages)| == |cands|
  {
    if cands != [] {
      var k := |cands| - 1;
      LootItemsAccountForCandidates(cands[..k], base, pages);
      EnumeratePrefix(cands, k);
    }
  }

  /**
   * A link listed twice is fetched twice, and the two fetches are separate
   * calls: the first may fail while the second succeeds, giving one failure
   * and one item.
   */
  lemma LootRepeatFetchedTwice(base: string, a: Anchor, doc: seq<Node>, e: string)
    ensures var pages: LootPages := (i: nat) => if i == 0 then Raised(e) else Returned(doc);
      var info := LootInfo(base, a);
      && LootFailures([a, a], base, pages) == [Failure(info.name, info.url, e)]
      && LootItems([a, a], base, pages) == [LootItem(info, doc)]
  {
    var pages: LootPages := (i: nat) => if i == 0 then Raised(e) else Returned(doc);
    var info := LootInfo(base, a);
    var es := Enumerate([a, a]);
    assert es == [(0, a), (1, a)];
    var first: seq<(nat, Anchor)> := es[..1];
    assert first == [(0, a)] && first[..0] == [];
    var kept, failed := LootKept(base, pages), LootFailure(base, pages);
    assert pages(0) == Raised(e) && pages(1) == Returned(doc);
    assert LootOutcome(base, pages(0), a).failure == Some(Failure(info.name, info.url, e));
    assert LootOutcome(base, pages(1), a) == ItemResult(LootItem(info, doc), None);
    assert kept((0, a)) == [] && failed((0, a)) == [Failure(info.name, info.url, e)];
    assert kept((1, a)) == [LootItem(info, doc)] && failed((1, a)) == [];
    assert FlatMap(first, kept) == [] && FlatMap(first, failed) == [Failure(info.name, info.url, e)];
  }

  /** Every kept loot item is in the `Loot` category and has a non-empty name. */
  lemma LootItemsShape(page: LootPage, base: string, pages: LootPages)
    ensures forall it | it in LootItems(LootCandidates(page), base, pages) :: it.category == LootCategory && it.name != []
  {
    var cands := LootCandidates(page);
    var es := Enumerate(cands);
    var g := LootKept(base, pages);
    FlatMapMembers(es, g);
    LootNamesNonEmpty(base, page);
    forall it | it in LootItems(cands, base, pages) ensures it.category == LootCategory && it.name != [] {
      var k :| 0 <= k < |es| && it in g(es[k]);
      assert es[k].1 == cands[k];
    }
  }

  // ---------------------------------------------------------------------
  // The scraper object.
  // ---------------------------------------------------------------------

  class WikiScraper {
    var baseUrl: string
    var failedCategories: seq<Failure>
    var failedItems: seq<Failure>

    constructor(baseUrl: string)
      ensures this.baseUrl == baseUrl && failedCategories == [] && failedItems == []
    {
      this.baseUrl := baseUrl;
      failedCategories := [];
      failedItems := [];
    }

    /** `scrape_category`: the retried fetch, the link loop, and the failure record when the retries are used up. */
    method ScrapeCategory(name: string, url: string, fetch: nat -> Outcome<seq<Anchor>>) returns (links: seq<ItemInfo>)
      modifies this
      ensures links == CategoryScrape(baseUrl, name, url, fetch).links
      ensures failedCategories == old(failedCategories) + FailureList(CategoryScrape(baseUrl, name, url, fetch).failure)
      ensures failedItems == old(failedItems) && baseUrl == old(baseUrl)
    {
      var run := RetryLoop(MaxRetries, BackoffDelays, fetch);
      links := [];
      match run.ending
      case Value(anchors) =>
        links := DiscoverCategoryLinks(anchors, baseUrl, name, url);
      case NoAttempt =>
      case Reraised(e) =>
        failedCategories := failedCategories + [Failure(name, url, e)];
      case IndexError =>
        failedCategories := failedCategories + [Failure(name, url, IndexErrorText)];
    }

    /** `scrape_item_page`: the retried fetch and extraction, or the item with no materials and a failure record. */
    method ScrapeItemPage(info: ItemInfo, fetch: nat -> Outcome<seq<Node>>) returns (item: Item)
      modifies this
      ensures item == ItemScrape(info, fetch).item
      ensures failedItems == old(failedItems) + FailureList(ItemScrape(info, fetch).failure)
      ensures failedCategories == old(failedCategories) && baseUrl == old(baseUrl)
    {
      var run := RetryLoop(MaxRetries, BackoffDelays, fetch);
      item := Item(info.name, info.category, info.url, []);
      match run.ending
      case Value(doc) =>
        var ms := ExtractRecyclingData(doc);
        item := Item(info.name, info.category, info.url, ms);
      case NoAttempt =>
      case Reraised(e) =>
        failedItems := failedItems + [Failure(info.name, info.url, e)];
      case IndexError =>
        failedItems := failedItems + [Failure(info.name, info.url, IndexErrorText)];
    }

    /** The inner loop of `scrape_all_categories`: one item per link, counted. */
    method ScrapeItems(links: seq<ItemInfo>, fetches: nat -> nat -> Outcome<seq<Node>>) returns (items: seq<Item>)
      modifies this
      ensures items == ItemsOf(links, fetches)
      ensures failedItems == old(failedItems) + ItemFailuresOf(links, fetches)
      ensures failedCategories == old(failedCategories) && baseUrl == old(baseUrl)
    {
      var es := Enumerate(links);
      items := [];
      for j := 0 to |links|
        invariant items == Map(es[..j], ItemEntry(fetches))
        invariant failedItems == old(failedItems) + FlatMap(es[..j], ItemFailure(fetches))
        invariant failedCategories == old(failedCategories) && baseUrl == old(baseUrl)
      {
        MapSnoc(es, j, ItemEntry(fetches));
        FlatMapSnoc(es, j, ItemFailure(fetches));
        AppendAssoc(old(failedItems), FlatMap(es[..j], ItemFailure(fetches)), ItemFailure(fetches)(es[j]));
        var item := ScrapeItemPage(links[j], fetches(j));
        items := items + [item];
      }
      PrefixAll(es);
    }

    /**
     * `scrape_all_categories`: both failure lists are reset, every category
     * is scraped in order, and the metadata counts the items and failures.
     */
    method ScrapeAllCategories(catPages: CategoryPages, itemPages: ItemPages, scrapedAt: string, elapsed: real) returns (result: Catalog)
      modifies this
      ensures result == CrawlCatalog(baseUrl, catPages, itemPages, scrapedAt, elapsed)
      ensures failedCategories == CrawlCategoryFailures(Categories, baseUrl, catPages)
      ensures failedItems == CrawlItemFailures(Categories, baseUrl, catPages, itemPages)
      ensures baseUrl == old(baseUrl)
    {
      failedCategories := [];
      failedItems := [];
      var es := Enumerate(Categories);
      var categories: seq<(string, seq<Item>)> := [];
      var totalItems := 0;
      for i := 0 to |Categories|
        invariant categories == Map(es[..i], CategoryEntry(baseUrl, catPages, itemPages))
        invariant totalItems == TotalItems(categories)
        invariant failedCategories == FlatMap(es[..i], CategoryFailure(baseUrl, catPages))
        invariant failedItems == FlatMap(es[..i], CategoryItemFailures(baseUrl, catPages, itemPages))
        invariant baseUrl == old(baseUrl)
      {
        var (name, url) := Categories[i];
        var links := ScrapeCategory(name, url, catPages(i));
        var items := ScrapeItems(links, itemPages(i));
        MapSnoc(es, i, CategoryEntry(baseUrl, catPages, itemPages));
        FlatMapSnoc(es, i, CategoryFailure(baseUrl, catPages));
        FlatMapSnoc(es, i, CategoryItemFailures(baseUrl, catPages, itemPages));
        TotalItemsAppend(categories, [(name, items)]);
        totalItems := totalItems + |items|;
        categories := categories + [(name, items)];
      }
      PrefixAll(es);
      result := Catalog(categories, Metadata(Version, scrapedAt, totalItems, |Categories|, elapsed, |failedCategories|, |failedItems|));
    }

    /**
     * `scrape_loot`: a failed Loot page fetch is raised; otherwise each
     * candidate link is fetched once, in order (a link listed twice is
     * fetched twice), the failed ones are recorded and
     * dropped.  The failure lists are not reset first, so the metadata
     * counts failures of earlier crawls too.
     */
    method ScrapeLoot(page: Outcome<LootPage>, pages: LootPages, scrapedAt: string, elapsed: real) returns (result: Result<Catalog, string>)
      modifies this
      ensures page.Raised? ==> result == Err(page.error) && failedItems == old(failedItems)
      ensures page.Returned? ==>
        var cands := LootCandidates(page.value);
        var items := LootItems(cands, baseUrl, pages);
        && failedItems == old(failedItems) + LootFailures(cands, baseUrl, pages)
        && result == Ok(Catalog([(LootCategory, items)], Metadata(Version, scrapedAt, |items|, 1, elapsed,
             |failedCategories|, |failedItems|)))
      ensures failedCategories == old(failedCategories) && baseUrl == old(baseUrl)
    {
      if page.Raised? {
        return Err(page.error);
      }
      var cands := SelectLootLinks(page.value);
      var es := Enumerate(cands);
      var items: seq<Item> := [];
      for i := 0 to |cands|
        invariant items == FlatMap(es[..i], LootKept(baseUrl, pages))
        invariant failedItems == old(failedItems) + FlatMap(es[..i], LootFailure(baseUrl, pages))
        invariant failedCategories == old(failedCategories) && baseUrl == old(baseUrl)
      {
        var a := cands[i];
        FlatMapSnoc(es, i, LootKept(baseUrl, pages));
        FlatMapSnoc(es, i, LootFailure(baseUrl, pages));
        AppendAssoc(old(failedItems), FlatMap(es[..i], LootFailure(baseUrl, pages)), LootFailure(baseUrl, pages)(es[i]));
        var info := LootInfo(baseUrl, a);
        match pages(i)
        case Returned(doc) =>
          var item := ScrapeLootItem(info, doc);
          items := items + [item];
        case Raised(e) =>
          failedItems := failedItems + [Failure(info.name, info.url, e)];
      }
      PrefixAll(es);
      result := Ok(Catalog([(LootCategory, items)], Metadata(Version, scrapedAt, |items|, 1, elapsed, |failedCategories|, |failedItems|)));
    }
  }
}
