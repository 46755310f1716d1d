/**
 * The records the scraper produces (`Material`, `Item`, the per-link item
 * information, the failure records and the catalog metadata) and their JSON
 * form, as `Item.to_dict` and the aggregation code build it.  JSON objects
 * are field lists in insertion order, like Python's dicts.
 */
module Catalog {
  import opened Wrappers
  import opened Text

  datatype Material = Material(name: string, quantity: nat)

  datatype Item = Item(name: string, category: string, url: string, materials: seq<Material>)

  /** The `{'name', 'url', 'category'}` dictionary a category page yields per link. */
  datatype ItemInfo = ItemInfo(name: string, url: string, category: string)

  /** The `{'name', 'url', 'error'}` dictionary recorded for a failed category or item. */
  datatype Failure = Failure(name: string, url: string, error: string)

  datatype Json =
    | JNull
    | JBool(b: bool)
    | JInt(i: int)
    | JReal(r: real)
    | JStr(s: string)
    | JArray(elems: seq<Json>)
    | JObject(fields: seq<(string, Json)>)

  /** Dictionary lookup; with a repeated key the last entry wins, as `json.load` builds it. */
  function Get(fields: seq<(string, Json)>, key: string): (r: Option<Json>)
    ensures r.None? <==> forall k | 0 <= k < |fields| :: fields[k].0 != key
    ensures r.Some? ==> exists k | 0 <= k < |fields| :: fields[k] == (key, r.value)
  {
    if fields == [] then None
    else
      var last := fields[|fields| - 1];
      if last.0 == key then Some(last.1) else Get(fields[..|fields| - 1], key)
  }

  function Keys(fields: seq<(string, Json)>): (r: seq<string>)
    ensures |r| == |fields| && forall k | 0 <= k < |fields| :: r[k] == fields[k].0
  {
    if fields == [] then [] else [fields[0].0] + Keys(fields[1..])
  }

  /** `asdict(material)`. */
  function MaterialToJson(m: Material): Json {
    JObject([("name", JStr(m.name)), ("quantity", JInt(m.quantity))])
  }

  function MaterialsToJson(ms: seq<Material>): (r: seq<Json>)
    ensures |r| == |ms| && forall k | 0 <= k < |ms| :: r[k] == MaterialToJson(ms[k])
  {
    if ms == [] then [] else [MaterialToJson(ms[0])] + MaterialsToJson(ms[1..])
  }

  /** `Item.to_dict`. */
  function ItemToJson(it: Item): Json {
    JObject([
      ("name", JStr(it.name)),
      ("category", JStr(it.category)),
      ("url", JStr(it.url)),
      ("materials", JArray(MaterialsToJson(it.materials)))])
  }

  function ItemsToJson(items: seq<Item>): (r: seq<Json>)
    ensures |r| == |items| && forall k | 0 <= k < |items| :: r[k] == ItemToJson(items[k])
  {
    if items == [] then [] else [ItemToJson(items[0])] + ItemsToJson(items[1..])
  }

  // ---------------------------------------------------------------------
  // Reading the JSON form back: the inverse of the serialisation above.
  // ---------------------------------------------------------------------

  function StrField(fields: seq<(string, Json)>, key: string): Option<string> {
    match Get(fields, key)
    case Some(JStr(s)) => Some(s)
    case _ => None
  }

  function MaterialFromJson(j: Json): Option<Material> {
    match j
    case JObject(fs) =>
      (match (StrField(fs, "name"), Get(fs, "quantity"))
       case (Some(n), Some(JInt(q))) => if q >= 0 then Some(Material(n, q)) else None
       case _ => None)
    case _ => None
  }

  function MaterialsFromJson(js: seq<Json>): (r: Option<seq<Material>>)
    ensures r.Some? ==> |r.value| == |js|
  {
    if js == [] then Some([])
    else match (MaterialFromJson(js[0]), MaterialsFromJson(js[1..]))
      case (Some(m), Some(ms)) => Some([m] + ms)
      case _ => None
  }

  function ItemFromJson(j: Json): Option<Item> {
    match j
    case JObject(fs) =>
      (match (StrField(fs, "name"), StrField(fs, "category"), StrField(fs, "url"), Get(fs, "materials"))
       case (Some(n), Some(c), Some(u), Some(JArray(ms))) =>
         (match MaterialsFromJson(ms)
          case Some(mats) => Some(Item(n, c, u, mats))
          case None => None)
       case _ => None)
    case _ => None
  }

  lemma MaterialRoundTrip(m: Material)
    ensures MaterialFromJson(MaterialToJson(m)) == Some(m)
  {
    var fs := [("name", JStr(m.name)), ("quantity", JInt(m.quantity))];
    assert fs[..1] == [("name", JStr(m.name))];
    assert Get(fs, "quantity") == Some(JInt(m.quantity));
    assert Get(fs, "name") == Some(JStr(m.name));
  }

  lemma {:induction false} MaterialsRoundTrip(ms: seq<Material>)
    ensures MaterialsFromJson(MaterialsToJson(ms)) == Some(ms)
  {
    if ms != [] {
      MaterialRoundTrip(ms[0]);
      MaterialsRoundTrip(ms[1..]);
      assert MaterialsToJson(ms)[1..] == MaterialsToJson(ms[1..]);
      assert [ms[0]] + ms[1..] == ms;
    }
  }

  /** `Item.to_dict` loses nothing: reading its output back gives the item. */
  lemma ItemRoundTrip(it: Item)
    ensures ItemFromJson(ItemToJson(it)) == Some(it)
  {
    var ms := JArray(MaterialsToJson(it.materials));
    var fs := [("name", JStr(it.name)), ("category", JStr(it.category)), ("url", JStr(it.url)), ("materials", ms)];
    assert fs[..3] == [("name", JStr(it.name)), ("category", JStr(it.category)), ("url", JStr(it.url))];
    assert fs[..3][..2] == [("name", JStr(it.name)), ("category", JStr(it.category))];
    assert fs[..3][..2][..1] == [("name", JStr(it.name))];
    assert Get(fs, "materials") == Some(ms);
    assert Get(fs, "url") == Some(JStr(it.url));
    assert Get(fs, "category") == Get(fs[..3], "category") == Get(fs[..3][..2], "category") == Some(JStr(it.category));
    assert Get(fs, "name") == Get(fs[..3], "name") == Get(fs[..3][..2], "name") == Get(fs[..3][..2][..1], "name");
    MaterialsRoundTrip(it.materials);
    assert StrField(fs, "name") == Some(it.name);
    assert StrField(fs, "category") == Some(it.category);
    assert StrField(fs, "url") == Some(it.url);
    assert ItemToJson(it) == JObject(fs);
  }

  /** The `metadata` block of a scraped catalog. */
  datatype Metadata = Metadata(
    version: string,
    scrapedAt: string,
    totalItems: nat,
    categoriesCount: nat,
    elapsedSeconds: real,
    failedCategories: nat,
    failedItems: nat)

  /** A scraped catalog: categories in insertion order, each with its items. */
  datatype Catalog = Catalog(categories: seq<(string, seq<Item>)>, metadata: Metadata)

  function MetadataToJson(md: Metadata): Json {
    JObject([
      ("version", JStr(md.version)),
      ("scraped_at", JStr(md.scrapedAt)),
      ("total_items", JInt(md.totalItems)),
      ("categories_count", JInt(md.categoriesCount)),
      ("elapsed_seconds", JReal(md.elapsedSeconds)),
      ("failed_categories", JInt(md.failedCategories)),
      ("failed_items", JInt(md.failedItems))])
  }

  function CategoriesToJson(cs: seq<(string, seq<Item>)>): (r: seq<(string, Json)>)
    ensures |r| == |cs|
    ensures forall k | 0 <= k < |cs| :: r[k] == (cs[k].0, JArray(ItemsToJson(cs[k].1)))
  {
    if cs == [] then [] else [(cs[0].0, JArray(ItemsToJson(cs[0].1)))] + CategoriesToJson(cs[1..])
  }

  /** The dictionary `scrape_all_categories` and `scrape_loot` return (and `save_to_json` writes). */
  function CatalogToJson(c: Catalog): Json {
    JObject([("categories", JObject(CategoriesToJson(c.categories))), ("metadata", MetadataToJson(c.metadata))])
  }

  /** Number of items over all categories. */
  function TotalItems(cs: seq<(string, seq<Item>)>): nat {
    if cs == [] then 0 else |cs[0].1| + TotalItems(cs[1..])
  }

  lemma {:induction false} TotalItemsAppend(a: seq<(string, seq<Item>)>, b: seq<(string, seq<Item>)>)
    ensures TotalItems(a + b) == TotalItems(a) + TotalItems(b)
  {
    if a != [] {
      assert (a + b)[1..] == a[1..] + b;
      TotalItemsAppend(a[1..], b);
    } else {
      assert a + b == b;
    }
  }
}
