/**
 * Finding the item pages a page links to.  A category page
 * (`_scrape_category_with_retry`) yields one entry per distinct item URL
 * with a non-empty link text; the Loot page (`scrape_loot`) yields the
 * first-column links of its first table, or, without a table, one link per
 * distinct item `href`.  The links arrive already collected from the page
 * content, in document order: parsing the page is not modelled.
 */
module LinkDiscovery {
  import opened Wrappers
  import opened Text
  import opened Catalog
  import opened Seqs

  /** A link `a` with an `href`: the attribute and `a.get_text(strip=True)`. */
  datatype Anchor = Anchor(href: string, text: string)

  /** A wiki article link: under `/wiki/`, not a special page (`:`), not an anchor (`#`). */
  predicate IsItemHref(href: string) {
    StartsWith(href, "/wiki/") && !HasChar(href, ':') && !HasChar(href, '#')
  }

  /** `self.base_url + href if href.startswith('/') else href`. */
  function FullUrl(base: string, href: string): string {
    if StartsWith(href, "/") then base + href else href
  }

  /** `category_url.replace(self.base_url, '')`: the category page's own `href`. */
  function SelfPath(base: string, categoryUrl: string): string {
    RemoveAll(categoryUrl, base)
  }

  predicate IsCandidate(a: Anchor, selfPath: string) {
    IsItemHref(a.href) && a.href != selfPath
  }

  function InfoOf(a: Anchor, base: string, category: string): ItemInfo {
    ItemInfo(a.text, FullUrl(base, a.href), category)
  }

  /**
   * The category link loop from a given set of already seen URLs: a
   * candidate's URL is marked as seen even when its text is empty and no
   * entry is made for it.
   */
  function LinksFrom(anchors: seq<Anchor>, base: string, selfPath: string, category: string, seen: set<string>): seq<ItemInfo> {
    if anchors == [] then []
    else
      var a := anchors[0];
      if !IsCandidate(a, selfPath) then LinksFrom(anchors[1..], base, selfPath, category, seen)
      else
        var url := FullUrl(base, a.href);
        if url in seen then LinksFrom(anchors[1..], base, selfPath, category, seen)
        else
          (if a.text != [] then [InfoOf(a, base, category)] else [])
          + LinksFrom(anchors[1..], base, selfPath, category, seen + {url})
  }

  /** The item links `_scrape_category_with_retry` returns for the page's links. */
  function CategoryLinks(anchors: seq<Anchor>, base: string, category: string, categoryUrl: string): seq<ItemInfo> {
    LinksFrom(anchors, base, SelfPath(base, categoryUrl), category, {})
  }

  // ---------------------------------------------------------------------
  // What the category links are.
  // ---------------------------------------------------------------------

  /**
   * Link `i` makes an entry: it is a candidate with a non-empty text, its URL
   * was not seen before the loop, and no earlier candidate has the same URL.
   */
  predicate KeptAt(anchors: seq<Anchor>, i: nat, base: string, selfPath: string, seen: set<string>)
    requires i < |anchors|
  {
    && IsCandidate(anchors[i], selfPath)
    && anchors[i].text != []
    && FullUrl(base, anchors[i].href) !in seen
    && forall j | 0 <= j < i :: !(IsCandidate(anchors[j], selfPath) && FullUrl(base, anchors[j].href) == FullUrl(base, anchors[i].href))
  }

  /** The set of URLs seen after the first link. */
  function SeenAfter(a: Anchor, base: string, selfPath: string, seen: set<string>): set<string> {
    if IsCandidate(a, selfPath) then seen + {FullUrl(base, a.href)} else seen
  }

  /** One step of the loop, with the seen set written uniformly. */
  lemma LinksFromStep(anchors: seq<Anchor>, base: string, selfPath: string, category: string, seen: set<string>)
    requires anchors != []
    ensures LinksFrom(anchors, base, selfPath, category, seen)
      == (if KeptAt(anchors, 0, base, selfPath, seen) then [InfoOf(anchors[0], base, category)] else [])
         + LinksFrom(anchors[1..], base, selfPath, category, SeenAfter(anchors[0], base, selfPath, seen))
  {
    var a := anchors[0];
    if IsCandidate(a, selfPath) && FullUrl(base, a.href) in seen {
      assert seen + {FullUrl(base, a.href)} == seen;
    }
  }

  /** Whether a later link makes an entry does not depend on whether the first is consumed already. */
  lemma KeptShift(anchors: seq<Anchor>, i: nat, base: string, selfPath: string, seen: set<string>)
    requires i + 1 < |anchors|
    ensures KeptAt(anchors, i + 1, base, selfPath, seen)
      <==> KeptAt(anchors[1..], i, base, selfPath, SeenAfter(anchors[0], base, selfPath, seen))
  {
    var rest := anchors[1..];
    assert anchors[i + 1] == rest[i];
    if KeptAt(rest, i, base, selfPath, SeenAfter(anchors[0], base, selfPath, seen)) {
      forall j | 0 <= j < i + 1
        ensures !(IsCandidate(anchors[j], selfPath) && FullUrl(base, anchors[j].href) == FullUrl(base, anchors[i + 1].href))
      {
        if j > 0 {
          assert anchors[j] == rest[j - 1];
        }
      }
    }
    if KeptAt(anchors, i + 1, base, selfPath, seen) {
      forall j | 0 <= j < i
        ensures !(IsCandidate(rest[j], selfPath) && FullUrl(base, rest[j].href) == FullUrl(base, rest[i].href))
      {
        assert rest[j] == anchors[j + 1];
      }
    }
  }

  /** The loop's entries are exactly the links that make one, each as its `{name, url, category}`. */
  lemma {:induction false} LinksFromMembers(anchors: seq<Anchor>, base: string, selfPath: string, category: string, seen: set<string>)
    ensures forall x :: x in LinksFrom(anchors, base, selfPath, category, seen) <==>
      exists i | 0 <= i < |anchors| :: KeptAt(anchors, i, base, selfPath, seen) && x == InfoOf(anchors[i], base, category)
  {
    if anchors != [] {
      var rest := anchors[1..];
      var seen' := SeenAfter(anchors[0], base, selfPath, seen);
      LinksFromStep(anchors, base, selfPath, category, seen);
      LinksFromMembers(rest, base, selfPath, category, seen');
      forall x ensures x in LinksFrom(anchors, base, selfPath, category, seen) <==>
        exists i | 0 <= i < |anchors| :: KeptAt(anchors, i, base, selfPath, seen) && x == InfoOf(anchors[i], base, category)
      {
        if x in LinksFrom(rest, base, selfPath, category, seen') {
          var i :| 0 <= i < |rest| && KeptAt(rest, i, base, selfPath, seen') && x == InfoOf(rest[i], base, category);
          KeptShift(anchors, i, base, selfPath, seen);
          assert KeptAt(anchors, i + 1, base, selfPath, seen) && x == InfoOf(anchors[i + 1], base, category);
        }
        if exists i | 0 <= i < |anchors| :: KeptAt(anchors, i, base, selfPath, seen) && x == InfoOf(anchors[i], base, category) {
          var i :| 0 <= i < |anchors| && KeptAt(anchors, i, base, selfPath, seen) && x == InfoOf(anchors[i], base, category);
          if i > 0 {
            KeptShift(anchors, i - 1, base, selfPath, seen);
            assert KeptAt(rest, i - 1, base, selfPath, seen') && x == InfoOf(rest[i - 1], base, category);
          }
        }
      }
    }
  }

  predicate DistinctUrls(r: seq<ItemInfo>) {
    forall p, q | 0 <= p < q < |r| :: r[p].url != r[q].url
  }

  predicate FreshUrls(r: seq<ItemInfo>, seen: set<string>) {
    forall k | 0 <= k < |r| :: r[k].url !in seen
  }

  /** No entry repeats a URL, and none has a URL seen before the loop. */
  lemma {:induction false} LinksFromDistinct(anchors: seq<Anchor>, base: string, selfPath: string, category: string, seen: set<string>)
    ensures FreshUrls(LinksFrom(anchors, base, selfPath, category, seen), seen)
    ensures DistinctUrls(LinksFrom(anchors, base, selfPath, category, seen))
  {
    if anchors != [] {
      var seen' := SeenAfter(anchors[0], base, selfPath, seen);
      LinksFromStep(anchors, base, selfPath, category, seen);
      LinksFromDistinct(anchors[1..], base, selfPath, category, seen');
      var r := LinksFrom(anchors, base, selfPath, category, seen);
      var tail := LinksFrom(anchors[1..], base, selfPath, category, seen');
      if KeptAt(anchors, 0, base, selfPath, seen) {
        assert r == [InfoOf(anchors[0], base, category)] + tail;
        forall p, q | 0 <= p < q < |r| ensures r[p].url != r[q].url {
          assert r[q] == tail[q - 1];
          if p > 0 {
            assert r[p] == tail[p - 1];
          }
        }
      }
    }
  }


  /** Each index one more: the indices of a list once its first element is put back. */
  function Shift(xs: seq<nat>): (r: seq<nat>)
    ensures |r| == |xs| && forall p | 0 <= p < |xs| :: r[p] == xs[p] + 1
  {
    if xs == [] then [] else [xs[0] + 1] + Shift(xs[1..])
  }

  predicate Ascending(xs: seq<nat>) {
    forall p, q | 0 <= p < q < |xs| :: xs[p] < xs[q]
  }

  /** Putting a first position back in front of ascending positions keeps them ascending. */
  lemma ShiftAscends(first: bool, xs: seq<nat>)
    requires Ascending(xs)
    ensures Ascending((if first then [0] else []) + Shift(xs))
  {
    var head: seq<nat> := if first then [0] else [];
    var ys := head + Shift(xs);
    forall p, q | 0 <= p < q < |ys| ensures ys[p] < ys[q] {
      assert ys[q] == xs[q - |head|] + 1;
      if p >= |head| {
        assert ys[p] == xs[p - |head|] + 1;
      }
    }
  }

  /** The positions, in page order, of the links that make an entry. */
  function KeptIndices(anchors: seq<Anchor>, base: string, selfPath: string, seen: set<string>): seq<nat>
    decreases |anchors|
  {
    if anchors == [] then []
    else
      (if KeptAt(anchors, 0, base, selfPath, seen) then [0] else [])
      + Shift(KeptIndices(anchors[1..], base, selfPath, SeenAfter(anchors[0], base, selfPath, seen)))
  }

  /** Entry `p` is made by link `KeptIndices[p]`, which makes an entry. */
  lemma {:induction false} KeptIndicesEntries(anchors: seq<Anchor>, base: string, selfPath: string, category: string, seen: set<string>)
    ensures var idx := KeptIndices(anchors, base, selfPath, seen);
      && |idx| == |LinksFrom(anchors, base, selfPath, category, seen)|
      && forall p | 0 <= p < |idx| ::
           && idx[p] < |anchors|
           && KeptAt(anchors, idx[p], base, selfPath, seen)
           && LinksFrom(anchors, base, selfPath, category, seen)[p] == InfoOf(anchors[idx[p]], base, category)
  {
    if anchors != [] {
      var rest := anchors[1..];
      var seen' := SeenAfter(anchors[0], base, selfPath, seen);
      LinksFromStep(anchors, base, selfPath, category, seen);
      KeptIndicesEntries(rest, base, selfPath, category, seen');
      var idx' := KeptIndices(rest, base, selfPath, seen');
      var tail := LinksFrom(rest, base, selfPath, category, seen');
      var head := if KeptAt(anchors, 0, base, selfPath, seen) then [0] else [];
      var idx := KeptIndices(anchors, base, selfPath, seen);
      var r := LinksFrom(anchors, base, selfPath, category, seen);
      assert idx == head + Shift(idx');
      forall p | 0 <= p < |idx|
        ensures idx[p] < |anchors| && KeptAt(anchors, idx[p], base, selfPath, seen) && r[p] == InfoOf(anchors[idx[p]], base, category)
      {
        if p >= |head| {
          var q := p - |head|;
          assert idx[p] == idx'[q] + 1;
          assert r[p] == tail[q];
          KeptShift(anchors, idx'[q], base, selfPath, seen);
          assert anchors[idx[p]] == rest[idx'[q]];
        }
      }
    }
  }

  /** The kept positions ascend. */
  lemma {:induction false} KeptIndicesAscend(anchors: seq<Anchor>, base: string, selfPath: string, seen: set<string>)
    ensures Ascending(KeptIndices(anchors, base, selfPath, seen))
  {
    if anchors != [] {
      var seen' := SeenAfter(anchors[0], base, selfPath, seen);
      KeptIndicesAscend(anchors[1..], base, selfPath, seen');
      ShiftAscends(KeptAt(anchors, 0, base, selfPath, seen), KeptIndices(anchors[1..], base, selfPath, seen'));
    }
  }

  /** Every link that makes an entry is at a kept position. */
  lemma {:induction false} KeptIndicesComplete(anchors: seq<Anchor>, base: string, selfPath: string, seen: set<string>)
    ensures forall i | 0 <= i < |anchors| && KeptAt(anchors, i, base, selfPath, seen) :: i in KeptIndices(anchors, base, selfPath, seen)
  {
    if anchors != [] {
      var seen' := SeenAfter(anchors[0], base, selfPath, seen);
      KeptIndicesComplete(anchors[1..], base, selfPath, seen');
      var idx' := KeptIndices(anchors[1..], base, selfPath, seen');
      var head := if KeptAt(anchors, 0, base, selfPath, seen) then [0] else [];
      var idx := KeptIndices(anchors, base, selfPath, seen);
      forall i | 0 <= i < |anchors| && KeptAt(anchors, i, base, selfPath, seen) ensures i in idx {
        if i > 0 {
          KeptShift(anchors, i - 1, base, selfPath, seen);
          var p :| 0 <= p < |idx'| && idx'[p] == i - 1;
          assert idx[|head| + p] == i;
        }
      }
    }
  }

  /**
   * `_scrape_category_with_retry` returns, in page order, one entry per
   * distinct item URL: every entry is a link to a wiki article other than the
   * category page itself, with a non-empty name and the category's name, and
   * it is the first such link to that URL; no URL appears twice.
   */
  lemma CategoryLinksMeaning(anchors: seq<Anchor>, base: string, category: string, categoryUrl: string)
    ensures forall x :: x in CategoryLinks(anchors, base, category, categoryUrl) <==>
      exists i | 0 <= i < |anchors| :: KeptAt(anchors, i, base, SelfPath(base, categoryUrl), {}) && x == InfoOf(anchors[i], base, category)
    ensures var idx := KeptIndices(anchors, base, SelfPath(base, categoryUrl), {});
      && |idx| == |CategoryLinks(anchors, base, category, categoryUrl)|
      && (forall p | 0 <= p < |idx| ::
            idx[p] < |anchors| && CategoryLinks(anchors, base, category, categoryUrl)[p] == InfoOf(anchors[idx[p]], base, category))
      && Ascending(idx)
      && (forall i | 0 <= i < |anchors| && KeptAt(anchors, i, base, SelfPath(base, categoryUrl), {}) :: i in idx)
    ensures DistinctUrls(CategoryLinks(anchors, base, category, categoryUrl))
    ensures forall x | x in CategoryLinks(anchors, base, category, categoryUrl) :: x.name != [] && x.category == category
  {
    var selfPath := SelfPath(base, categoryUrl);
    LinksFromMembers(anchors, base, selfPath, category, {});
    LinksFromDistinct(anchors, base, selfPath, category, {});
    KeptIndicesEntries(anchors, base, selfPath, category, {});
    KeptIndicesAscend(anchors, base, selfPath, {});
    KeptIndicesComplete(anchors, base, selfPath, {});
    assert CategoryLinks(anchors, base, category, categoryUrl) == LinksFrom(anchors, base, selfPath, category, {});
  }

  /** `_scrape_category_with_retry`'s link loop. */
  method DiscoverCategoryLinks(anchors: seq<Anchor>, base: string, category: string, categoryUrl: string) returns (links: seq<ItemInfo>)
    ensures links == CategoryLinks(anchors, base, category, categoryUrl)
  {
    var selfPath := SelfPath(base, categoryUrl);
    var seen: set<string> := {};
    links := [];
    for i := 0 to |anchors|
      invariant links + LinksFrom(anchors[i..], base, selfPath, category, seen) == CategoryLinks(anchors, base, category, categoryUrl)
    {
      SuffixStep(anchors, i);
      var a := anchors[i];
      if !IsItemHref(a.href) || a.href == selfPath {
        continue;
      }
      var url := FullUrl(base, a.href);
      if url in seen {
        continue;
      }
      seen := seen + {url};
      if a.text != [] {
        AppendAssoc(links, [InfoOf(a, base, category)], LinksFrom(anchors[i + 1..], base, selfPath, category, seen));
        links := links + [ItemInfo(a.text, url, category)];
      }
    }
    assert anchors[|anchors|..] == [];
  }

  // ---------------------------------------------------------------------
  // The Loot page.
  // ---------------------------------------------------------------------

  /** A row of the loot table: for each `td` cell, the first link with an `href` inside it, if any. */
  datatype LootRow = LootRow(cells: seq<Option<Anchor>>)

  /** The Loot page: the rows of its first table, if it has one, and every link with an `href` in its content. */
  datatype LootPage = LootPage(table: Option<seq<LootRow>>, anchors: seq<Anchor>)

  /** A row's candidate: the first cell's link, when there is one and it is under `/wiki/`. */
  function RowLink(row: LootRow): Option<Anchor> {
    if row.cells == [] then None
    else match row.cells[0]
      case None => None
      case Some(a) => if StartsWith(a.href, "/wiki/") then Some(a) else None
  }

  function RowLinks(row: LootRow): seq<Anchor> {
    match RowLink(row)
    case Some(a) => [a]
    case None => []
  }

  /** The candidates of the table branch, in row order. */
  function TableLinks(rows: seq<LootRow>): seq<Anchor> {
    FlatMap(rows, RowLinks)
  }

  /** Without a table: item links, one per distinct `href`. */
  function FallbackLinks(anchors: seq<Anchor>, seen: set<string>): seq<Anchor> {
    if anchors == [] then []
    else if !IsItemHref(anchors[0].href) || anchors[0].href in seen then FallbackLinks(anchors[1..], seen)
    else [anchors[0]] + FallbackLinks(anchors[1..], seen + {anchors[0].href})
  }

  /** `link_candidates` of `scrape_loot`: the table rows after the first, or the fallback scan. */
  function LootCandidates(page: LootPage): seq<Anchor> {
    match page.table
    case Some(rows) => if rows == [] then [] else TableLinks(rows[1..])
    case None => FallbackLinks(page.anchors, {})
  }

  /** `item_info` of a loot candidate: its text, or its URL when the text is empty. */
  function LootInfo(base: string, a: Anchor): ItemInfo {
    var url := FullUrl(base, a.href);
    ItemInfo(if a.text != [] then a.text else url, url, "Loot")
  }

  /** Each table candidate is the first-column link of some row, and every such link under `/wiki/` is a candidate. */
  lemma TableLinksMembers(rows: seq<LootRow>)
    ensures forall a :: a in TableLinks(rows) <==> exists k | 0 <= k < |rows| :: RowLink(rows[k]) == Some(a)
  {
    FlatMapMembers(rows, RowLinks);
    forall a, k | 0 <= k < |rows| ensures a in RowLinks(rows[k]) <==> RowLink(rows[k]) == Some(a) {
    }
  }

  /** Every link in `r` is an item link of `anchors` whose `href` is not in `seen`. */
  predicate KeptItemLinks(r: seq<Anchor>, anchors: seq<Anchor>, seen: set<string>) {
    forall k | 0 <= k < |r| :: r[k] in anchors && IsItemHref(r[k].href) && r[k].href !in seen
  }

  predicate DistinctHrefs(r: seq<Anchor>) {
    forall p, q | 0 <= p < q < |r| :: r[p].href != r[q].href
  }

  /** Every item link of `anchors` whose `href` is not in `seen` has its `href` in `r`. */
  predicate CoversItemHrefs(r: seq<Anchor>, anchors: seq<Anchor>, seen: set<string>) {
    forall i | 0 <= i < |anchors| && IsItemHref(anchors[i].href) && anchors[i].href !in seen ::
      exists k | 0 <= k < |r| :: r[k].href == anchors[i].href
  }

  /** Each link the fallback scan keeps is an item link of the page whose `href` was not seen before. */
  lemma {:induction false} FallbackLinksKept(anchors: seq<Anchor>, seen: set<string>)
    ensures KeptItemLinks(FallbackLinks(anchors, seen), anchors, seen)
  {
    if anchors != [] {
      var a := anchors[0];
      var rest := anchors[1..];
      var r := FallbackLinks(anchors, seen);
      if !IsItemHref(a.href) || a.href in seen {
        FallbackLinksKept(rest, seen);
        assert r == FallbackLinks(rest, seen);
        forall k | 0 <= k < |r| ensures r[k] in anchors {
          var i :| 0 <= i < |rest| && rest[i] == r[k];
          assert anchors[i + 1] == r[k];
        }
      } else {
        var tail := FallbackLinks(rest, seen + {a.href});
        FallbackLinksKept(rest, seen + {a.href});
        assert r == [a] + tail;
        forall k | 0 <= k < |r| ensures r[k] in anchors && IsItemHref(r[k].href) && r[k].href !in seen {
          if k == 0 {
            assert r[0] == a == anchors[0];
          } else {
            assert r[k] == tail[k - 1];
            var i :| 0 <= i < |rest| && rest[i] == r[k];
            assert anchors[i + 1] == r[k];
          }
        }
      }
    }
  }

  /** The fallback scan never keeps two links with the same `href`. */
  lemma {:induction false} FallbackLinksDistinct(anchors: seq<Anchor>, seen: set<string>)
    ensures DistinctHrefs(FallbackLinks(anchors, seen))
  {
    if anchors != [] {
      var a := anchors[0];
      if !IsItemHref(a.href) || a.href in seen {
        FallbackLinksDistinct(anchors[1..], seen);
        assert FallbackLinks(anchors, seen) == FallbackLinks(anchors[1..], seen);
      } else {
        var tail := FallbackLinks(anchors[1..], seen + {a.href});
        FallbackLinksDistinct(anchors[1..], seen + {a.href});
        FallbackLinksKept(anchors[1..], seen + {a.href});
        var r := FallbackLinks(anchors, seen);
        assert r == [a] + tail;
        forall p, q | 0 <= p < q < |r| ensures r[p].href != r[q].href {
          assert r[q] == tail[q - 1];
          if p == 0 {
            assert r[p] == a;
            assert tail[q - 1].href !in seen + {a.href};
          } else {
            assert r[p] == tail[p - 1];
          }
        }
      }
    }
  }

  /** Every item link of the page whose `href` was not seen before has its `href` kept. */
  lemma {:induction false} FallbackLinksComplete(anchors: seq<Anchor>, seen: set<string>)
    ensures CoversItemHrefs(FallbackLinks(anchors, seen), anchors, seen)
  {
    if anchors != [] {
      var a := anchors[0];
      var rest := anchors[1..];
      var r := FallbackLinks(anchors, seen);
      if !IsItemHref(a.href) || a.href in seen {
        FallbackLinksComplete(rest, seen);
        assert r == FallbackLinks(rest, seen);
        forall i | 0 <= i < |anchors| && IsItemHref(anchors[i].href) && anchors[i].href !in seen
          ensures exists k | 0 <= k < |r| :: r[k].href == anchors[i].href
        {
          assert anchors[i] == rest[i - 1];
        }
      } else {
        var tail := FallbackLinks(rest, seen + {a.href});
        FallbackLinksComplete(rest, seen + {a.href});
        assert r == [a] + tail;
        forall i | 0 <= i < |anchors| && IsItemHref(anchors[i].href) && anchors[i].href !in seen
          ensures exists k | 0 <= k < |r| :: r[k].href == anchors[i].href
        {
          if anchors[i].href == a.href {
            assert r[0].href == anchors[i].href;
          } else {
            assert anchors[i] == rest[i - 1];
            var k :| 0 <= k < |tail| && tail[k].href == anchors[i].href;
            assert r[k + 1].href == anchors[i].href;
          }
        }
      }
    }
  }


  /** Link `i` is the first item link of the page with its `href`, and that `href` was not seen before. */
  predicate FirstOfHref(anchors: seq<Anchor>, i: nat, seen: set<string>)
    requires i < |anchors|
  {
    && IsItemHref(anchors[i].href)
    && anchors[i].href !in seen
    && forall j | 0 <= j < i :: anchors[j].href != anchors[i].href
  }

  /** The `href`s seen by the fallback scan after link `a`. */
  function FallbackSeen(a: Anchor, seen: set<string>): set<string> {
    if IsItemHref(a.href) then seen + {a.href} else seen
  }

  /** One step of the fallback scan, with the seen set written uniformly. */
  lemma FallbackStep(anchors: seq<Anchor>, seen: set<string>)
    requires anchors != []
    ensures FallbackLinks(anchors, seen)
      == (if FirstOfHref(anchors, 0, seen) then [anchors[0]] else []) + FallbackLinks(anchors[1..], FallbackSeen(anchors[0], seen))
  {
    var a := anchors[0];
    if IsItemHref(a.href) && a.href in seen {
      assert seen + {a.href} == seen;
    }
  }

  lemma FirstOfHrefShift(anchors: seq<Anchor>, i: nat, seen: set<string>)
    requires i + 1 < |anchors|
    ensures FirstOfHref(anchors, i + 1, seen) <==> FirstOfHref(anchors[1..], i, FallbackSeen(anchors[0], seen))
  {
    var rest := anchors[1..];
    assert anchors[i + 1] == rest[i];
    if FirstOfHref(rest, i, FallbackSeen(anchors[0], seen)) {
      forall j | 0 <= j < i + 1 ensures anchors[j].href != anchors[i + 1].href {
        if j > 0 {
          assert anchors[j] == rest[j - 1];
        }
      }
    }
    if FirstOfHref(anchors, i + 1, seen) {
      forall j | 0 <= j < i ensures rest[j].href != rest[i].href {
        assert rest[j] == anchors[j + 1];
      }
    }
  }

  /** The positions, in page order, of the links the fallback scan keeps. */
  function FallbackIndices(anchors: seq<Anchor>, seen: set<string>): seq<nat>
    decreases |anchors|
  {
    if anchors == [] then []
    else
      (if FirstOfHref(anchors, 0, seen) then [0] else [])
      + Shift(FallbackIndices(anchors[1..], FallbackSeen(anchors[0], seen)))
  }

  /** Kept link `p` is link `FallbackIndices[p]` of the page, the first item link with its `href`. */
  lemma {:induction false} FallbackIndicesEntries(anchors: seq<Anchor>, seen: set<string>)
    ensures var idx := FallbackIndices(anchors, seen);
      && |idx| == |FallbackLinks(anchors, seen)|
      && forall p | 0 <= p < |idx| ::
           idx[p] < |anchors| && FirstOfHref(anchors, idx[p], seen) && FallbackLinks(anchors, seen)[p] == anchors[idx[p]]
  {
    if anchors != [] {
      var rest := anchors[1..];
      var seen' := FallbackSeen(anchors[0], seen);
      FallbackStep(anchors, seen);
      FallbackIndicesEntries(rest, seen');
      var idx' := FallbackIndices(rest, seen');
      var tail := FallbackLinks(rest, seen');
      var head := if FirstOfHref(anchors, 0, seen) then [0] else [];
      var idx := FallbackIndices(anchors, seen);
      var r := FallbackLinks(anchors, seen);
      forall p | 0 <= p < |idx|
        ensures idx[p] < |anchors| && FirstOfHref(anchors, idx[p], seen) && r[p] == anchors[idx[p]]
      {
        if p < |head| {
          assert idx[p] == 0 && r[p] == anchors[0];
        } else {
          var q := p - |head|;
          assert idx[p] == idx'[q] + 1 by {
            assert idx == head + Shift(idx');
          }
          assert r[p] == tail[q] by {
            assert r == (if FirstOfHref(anchors, 0, seen) then [anchors[0]] else []) + tail;
          }
          FirstOfHrefShift(anchors, idx'[q], seen);
          assert anchors[idx[p]] == rest[idx'[q]];
        }
      }
    }
  }

  /** The kept positions ascend. */
  lemma {:induction false} FallbackIndicesAscend(anchors: seq<Anchor>, seen: set<string>)
    ensures Ascending(FallbackIndices(anchors, seen))
  {
    if anchors != [] {
      var seen' := FallbackSeen(anchors[0], seen);
      FallbackIndicesAscend(anchors[1..], seen');
      ShiftAscends(FirstOfHref(anchors, 0, seen), FallbackIndices(anchors[1..], seen'));
    }
  }

  /** Every first item link of its `href` is kept. */
  lemma {:induction false} FallbackIndicesComplete(anchors: seq<Anchor>, seen: set<string>)
    ensures forall i | 0 <= i < |anchors| && FirstOfHref(anchors, i, seen) :: i in FallbackIndices(anchors, seen)
  {
    if anchors != [] {
      var seen' := FallbackSeen(anchors[0], seen);
      FallbackIndicesComplete(anchors[1..], seen');
      var idx' := FallbackIndices(anchors[1..], seen');
      var head := if FirstOfHref(anchors, 0, seen) then [0] else [];
      var idx := FallbackIndices(anchors, seen);
      forall i | 0 <= i < |anchors| && FirstOfHref(anchors, i, seen) ensures i in idx {
        if i > 0 {
          FirstOfHrefShift(anchors, i - 1, seen);
          var p :| 0 <= p < |idx'| && idx'[p] == i - 1;
          assert idx[|head| + p] == i;
        }
      }
    }
  }

  /**
   * Without a table, `scrape_loot` keeps exactly one link per distinct item
   * `href` of the page: each kept link is an item link, no `href` is kept
   * twice, and every item link's `href` is kept.  The kept link is the
   * first one with its `href`, whose text names the item, and the kept links
   * are in page order.
   */
  lemma FallbackLinksMeaning(anchors: seq<Anchor>)
    ensures var idx := FallbackIndices(anchors, {});
      && |idx| == |FallbackLinks(anchors, {})|
      && (forall p | 0 <= p < |idx| ::
            idx[p] < |anchors| && FirstOfHref(anchors, idx[p], {}) && FallbackLinks(anchors, {})[p] == anchors[idx[p]])
      && Ascending(idx)
      && (forall i | 0 <= i < |anchors| && FirstOfHref(anchors, i, {}) :: i in idx)
    ensures KeptItemLinks(FallbackLinks(anchors, {}), anchors, {})
    ensures DistinctHrefs(FallbackLinks(anchors, {}))
    ensures CoversItemHrefs(FallbackLinks(anchors, {}), anchors, {})
  {
    FallbackLinksKept(anchors, {});
    FallbackLinksDistinct(anchors, {});
    FallbackLinksComplete(anchors, {});
    FallbackIndicesEntries(anchors, {});
    FallbackIndicesAscend(anchors, {});
    FallbackIndicesComplete(anchors, {});
  }

  /** The table branch does no de-duplication and no `:`/`#` filtering: a repeated file link is scraped twice. */
  lemma TableKeepsRepeats()
    ensures var link := Anchor("/wiki/File:Gear.png", "");
      var row := LootRow([Some(link)]);
      LootCandidates(LootPage(Some([LootRow([]), row, row]), [])) == [link, link]
  {
    var link := Anchor("/wiki/File:Gear.png", "");
    var row := LootRow([Some(link)]);
    assert StartsWith(link.href, "/wiki/");
    assert RowLinks(row) == [link];
    assert [LootRow([]), row, row][1..] == [row, row];
    assert [row, row][..1] == [row];
    assert [row][..0] == [];
    assert FlatMap([row], RowLinks) == [link];
    assert FlatMap([row, row], RowLinks) == FlatMap([row], RowLinks) + [link];
  }

  /** Every loot item gets a non-empty name: the link text, or else its URL, which is never empty. */
  lemma LootNamesNonEmpty(base: string, page: LootPage)
    ensures forall a | a in LootCandidates(page) :: LootInfo(base, a).name != [] && LootInfo(base, a).category == "Loot"
  {
    forall a | a in LootCandidates(page) ensures LootInfo(base, a).name != [] {
      match page.table
      case Some(rows) =>
        if rows != [] {
          TableLinksMembers(rows[1..]);
          var k :| 0 <= k < |rows[1..]| && RowLink(rows[1..][k]) == Some(a);
          assert StartsWith(a.href, "/wiki/");
        }
      case None =>
        FallbackLinksKept(page.anchors, {});
        var r := FallbackLinks(page.anchors, {});
        var k :| 0 <= k < |r| && r[k] == a;
        assert StartsWith(a.href, "/wiki/");
    }
  }

  /** The table-branch loop over `rows[1:]`. */
  method SelectTableLinks(rows: seq<LootRow>) returns (links: seq<Anchor>)
    ensures links == TableLinks(rows)
  {
    links := [];
    for i := 0 to |rows|
      invariant links == FlatMap(rows[..i], RowLinks)
    {
      FlatMapSnoc(rows, i, RowLinks);
      var cells := rows[i].cells;
      if cells != [] {
        var link := cells[0];
        if link.Some? {
          if StartsWith(link.value.href, "/wiki/") {
            links := links + [link.value];
          }
        }
      }
    }
    assert rows[..|rows|] == rows;
  }

  /** The fallback loop with its `seen` set of `href`s. */
  method SelectFallbackLinks(anchors: seq<Anchor>) returns (links: seq<Anchor>)
    ensures links == FallbackLinks(anchors, {})
  {
    var seen: set<string> := {};
    links := [];
    for i := 0 to |anchors|
      invariant links + FallbackLinks(anchors[i..], seen) == FallbackLinks(anchors, {})
    {
      SuffixStep(anchors, i);
      var a := anchors[i];
      if !IsItemHref(a.href) || a.href in seen {
        continue;
      }
      AppendAssoc(links, [a], FallbackLinks(anchors[i + 1..], seen + {a.href}));
      seen := seen + {a.href};
      links := links + [a];
    }
    assert anchors[|anchors|..] == [];
  }

  /** `link_candidates` of `scrape_loot`. */
  method SelectLootLinks(page: LootPage) returns (links: seq<Anchor>)
    ensures links == LootCandidates(page)
  {
    if page.table.Some? {
      var rows := page.table.value;
      if rows == [] {
        return [];
      }
      links := SelectTableLinks(rows[1..]);
    } else {
      links := SelectFallbackLinks(page.anchors);
    }
  }
}
