/**
 * `_scrape_loot_item`: the materials of a loot item page are its Recycling
 * section followed by its Salvaging section, the salvaged ones renamed with
 * a `(Salvage) ` prefix so that the two kinds can be told apart again.
 * Fetching the page is not modelled: the page arrives as a parsed document.
 */
module Items {
  import opened Html
  import opened Catalog
  import opened Sections

  const SalvagePrefix: string := "(Salvage) "

  /** `Material(name=f"(Salvage) {m.name}", quantity=m.quantity)`. */
  function Tagged(m: Material): Material {
    Material(SalvagePrefix + m.name, m.quantity)
  }

  function TagAll(ms: seq<Material>): (r: seq<Material>)
    ensures |r| == |ms|
    ensures forall k | 0 <= k < |ms| :: r[k] == Tagged(ms[k])
  {
    if ms == [] then [] else [Tagged(ms[0])] + TagAll(ms[1..])
  }

  /** The combined materials list: the recycling materials, then the tagged salvaging materials. */
  function Merged(recycling: seq<Material>, salvaging: seq<Material>): seq<Material> {
    recycling + TagAll(salvaging)
  }

  // ---------------------------------------------------------------------
  // Telling the two kinds apart again.
  // ---------------------------------------------------------------------

  predicate IsTagged(m: Material) {
    SalvagePrefix <= m.name
  }

  /** The salvaging material a tagged entry stands for. */
  function Untag(m: Material): Material
    requires IsTagged(m)
  {
    Material(m.name[|SalvagePrefix|..], m.quantity)
  }

  /** A combined list split back into its recycling part (untagged entries) and salvaging part (tagged entries, untagged). */
  function Provenance(ms: seq<Material>): (seq<Material>, seq<Material>) {
    if ms == [] then ([], [])
    else
      var rest := Provenance(ms[1..]);
      if IsTagged(ms[0]) then (rest.0, [Untag(ms[0])] + rest.1)
      else ([ms[0]] + rest.0, rest.1)
  }

  lemma UntagTagged(m: Material)
    ensures IsTagged(Tagged(m)) && Untag(Tagged(m)) == m
  {
    assert SalvagePrefix <= SalvagePrefix + m.name;
    assert (SalvagePrefix + m.name)[|SalvagePrefix|..] == m.name;
  }

  /** The tagged entries alone split back into exactly the salvaging materials. */
  lemma {:induction false} ProvenanceOfTagged(salvaging: seq<Material>)
    ensures Provenance(TagAll(salvaging)) == ([], salvaging)
  {
    if salvaging != [] {
      var t := TagAll(salvaging);
      assert t[1..] == TagAll(salvaging[1..]);
      ProvenanceOfTagged(salvaging[1..]);
      UntagTagged(salvaging[0]);
      assert [salvaging[0]] + salvaging[1..] == salvaging;
    }
  }

  /**
   * The combined list loses nothing: when no recycling material's own name
   * starts with the prefix, splitting it by the prefix gives back both lists.
   */
  lemma {:induction false} ProvenanceRoundTrip(recycling: seq<Material>, salvaging: seq<Material>)
    requires forall k | 0 <= k < |recycling| :: !IsTagged(recycling[k])
    ensures Provenance(Merged(recycling, salvaging)) == (recycling, salvaging)
  {
    if recycling == [] {
      assert Merged(recycling, salvaging) == TagAll(salvaging);
      ProvenanceOfTagged(salvaging);
    } else {
      var ms := Merged(recycling, salvaging);
      assert ms[0] == recycling[0];
      assert ms[1..] == Merged(recycling[1..], salvaging);
      ProvenanceRoundTrip(recycling[1..], salvaging);
      assert [recycling[0]] + recycling[1..] == recycling;
    }
  }

  /** Recycling materials first, unchanged; then one tagged entry per salvaging material, quantity unchanged. */
  lemma MergedLayout(recycling: seq<Material>, salvaging: seq<Material>)
    ensures var ms := Merged(recycling, salvaging);
      && |ms| == |recycling| + |salvaging|
      && ms[..|recycling|] == recycling
      && forall k | 0 <= k < |salvaging| ::
           ms[|recycling| + k].name == SalvagePrefix + salvaging[k].name
           && ms[|recycling| + k].quantity == salvaging[k].quantity
  {
  }

  // ---------------------------------------------------------------------
  // The loops of `_scrape_loot_item`.
  // ---------------------------------------------------------------------

  /** The two `materials.append` loops. */
  method MergeMaterials(recycling: seq<Material>, salvaging: seq<Material>) returns (ms: seq<Material>)
    ensures ms == Merged(recycling, salvaging)
  {
    ms := [];
    for i := 0 to |recycling|
      invariant ms == recycling[..i]
    {
      ms := ms + [Material(recycling[i].name, recycling[i].quantity)];
    }
    for j := 0 to |salvaging|
      invariant |ms| == |recycling| + j
      invariant ms[..|recycling|] == recycling
      invariant forall k | 0 <= k < j :: ms[|recycling| + k] == Tagged(salvaging[k])
    {
      ms := ms + [Material(SalvagePrefix + salvaging[j].name, salvaging[j].quantity)];
    }
    assert ms == recycling + TagAll(salvaging);
  }

  /** The item `_scrape_loot_item` builds from a fetched page. */
  function LootItem(info: ItemInfo, doc: seq<Node>): Item {
    Item(info.name, info.category, info.url,
         Merged(SectionMaterials(doc, RecyclingKeywords), SectionMaterials(doc, SalvagingKeywords)))
  }

  /** A loot item keeps its link's name, category and URL, and splits back into the page's two sections. */
  lemma LootItemSections(info: ItemInfo, doc: seq<Node>)
    requires forall m | m in SectionMaterials(doc, RecyclingKeywords) :: !IsTagged(m)
    ensures var it := LootItem(info, doc);
      && it.name == info.name && it.category == info.category && it.url == info.url
      && Provenance(it.materials) == (SectionMaterials(doc, RecyclingKeywords), SectionMaterials(doc, SalvagingKeywords))
  {
    ProvenanceRoundTrip(SectionMaterials(doc, RecyclingKeywords), SectionMaterials(doc, SalvagingKeywords));
  }

  /** `_scrape_loot_item` after the fetch: both sections, then the merge. */
  method ScrapeLootItem(info: ItemInfo, doc: seq<Node>) returns (it: Item)
    ensures it == LootItem(info, doc)
  {
    var recycling := ExtractSectionMaterials(doc, RecyclingKeywords);
    var salvaging := ExtractSectionMaterials(doc, SalvagingKeywords);
    var ms := MergeMaterials(recycling, salvaging);
    it := Item(info.name, info.category, info.url, ms);
  }
}
