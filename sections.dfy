/**
 * Locating the materials of an item page.
 *
 * `_extract_section_materials` finds the first `h2`/`h3`/`h4` heading that
 * mentions one of its keywords and walks forward through the document
 * (`find_next()`, i.e. every later element in document order, nested ones
 * included) until the next heading, collecting materials from lists,
 * containers and tables; a table whose header labels a recycling or a
 * salvaging column ends the walk.  `extract_recycling_data` finds a heading
 * mentioning both "recycled" and "salvaged" and walks its following
 * element siblings instead.
 */
module Sections {
  import opened Wrappers
  import opened Text
  import opened Html
  import opened MaterialParser
  import opened Catalog
  import opened Extractors
  import opened Seqs

  const HeadingTags: set<string> := {"h2", "h3", "h4"}

  /** The keyword lists `_scrape_loot_item` passes for the two sections. */
  const RecyclingKeywords: seq<string> := ["recycling", "recycled", "recycling results"]
  const SalvagingKeywords: seq<string> := ["salvaging", "salvaged", "salvaging results"]

  /** `h.get_text(strip=True).lower()`. */
  function HeadingText(n: Node): string {
    Lower(GetText(n, ""))
  }

  predicate IsHeading(n: Node) {
    n.Element? && n.tag in HeadingTags
  }

  predicate MentionsAny(text: string, kws: seq<string>) {
    exists k | 0 <= k < |kws| :: Contains(text, kws[k])
  }

  predicate IsSectionHeading(n: Node, kws: seq<string>) {
    IsHeading(n) && MentionsAny(HeadingText(n), kws)
  }

  /** Index of the first heading, from `i` on, that mentions a keyword. */
  function FirstHeadingFrom(es: seq<Node>, kws: seq<string>, i: nat): (r: Option<nat>)
    requires i <= |es|
    ensures r.Some? ==> i <= r.value < |es|
    decreases |es| - i
  {
    if i == |es| then None
    else if IsSectionHeading(es[i], kws) then Some(i)
    else FirstHeadingFrom(es, kws, i + 1)
  }

  function FirstHeading(es: seq<Node>, kws: seq<string>): (r: Option<nat>)
    ensures r.Some? ==> r.value < |es|
  {
    FirstHeadingFrom(es, kws, 0)
  }

  lemma {:induction false} FirstHeadingFromMeaning(es: seq<Node>, kws: seq<string>, i: nat)
    requires i <= |es|
    ensures var r := FirstHeadingFrom(es, kws, i);
      && (r.Some? ==> IsSectionHeading(es[r.value], kws) && forall j | i <= j < r.value :: !IsSectionHeading(es[j], kws))
      && (r.None? ==> forall j | i <= j < |es| :: !IsSectionHeading(es[j], kws))
    decreases |es| - i
  {
    if i < |es| && !IsSectionHeading(es[i], kws) {
      FirstHeadingFromMeaning(es, kws, i + 1);
    }
  }

  /** The heading search picks the first heading, in document order, that mentions a keyword. */
  lemma FirstHeadingMeaning(es: seq<Node>, kws: seq<string>)
    ensures var r := FirstHeading(es, kws);
      && (r.Some? ==> IsSectionHeading(es[r.value], kws) && forall j | 0 <= j < r.value :: !IsSectionHeading(es[j], kws))
      && (r.None? ==> forall j | 0 <= j < |es| :: !IsSectionHeading(es[j], kws))
  {
    FirstHeadingFromMeaning(es, kws, 0);
  }

  // ---------------------------------------------------------------------
  // Tables whose header names a recycling and/or a salvaging column.
  // ---------------------------------------------------------------------

  /** Index of the last text containing `needle` (the loop overwrites the index on every hit). */
  function LastContaining(texts: seq<string>, needle: string): (r: Option<nat>)
    ensures r.Some? ==> r.value < |texts|
  {
    if texts == [] then None
    else if Contains(texts[|texts| - 1], needle) then Some(|texts| - 1)
    else LastContaining(texts[..|texts| - 1], needle)
  }

  /** The column search reports the last header text containing the needle, and `None` only when none does. */
  lemma {:induction false} LastContainingMeaning(texts: seq<string>, needle: string)
    ensures var r := LastContaining(texts, needle);
      && (r.Some? ==> Contains(texts[r.value], needle) && forall j | r.value < j < |texts| :: !Contains(texts[j], needle))
      && (r.None? ==> forall j | 0 <= j < |texts| :: !Contains(texts[j], needle))
  {
    if texts != [] && !Contains(texts[|texts| - 1], needle) {
      LastContainingMeaning(texts[..|texts| - 1], needle);
    }
  }

  /** One more header text: it becomes the answer exactly when it contains the needle. */
  lemma LastContainingSnoc(texts: seq<string>, i: nat, needle: string)
    requires i < |texts|
    ensures LastContaining(texts[..i + 1], needle)
         == if Contains(texts[i], needle) then Some(i) else LastContaining(texts[..i], needle)
  {
    PrefixOfPrefix(texts, i, i + 1);
  }

  function HeaderTexts(cells: seq<Node>): (r: seq<string>)
    ensures |r| == |cells|
  {
    if cells == [] then [] else [HeadingText(cells[0])] + HeaderTexts(cells[1..])
  }

  datatype Columns = Columns(recycling: Option<nat>, salvaging: Option<nat>)

  /** The recycling and salvaging column indices named by a header row. */
  function LabeledColumns(header: Node): Columns {
    var texts := HeaderTexts(FindAll(header, CellTags));
    Columns(LastContaining(texts, "recycling"), LastContaining(texts, "salvag"))
  }

  predicate IsLabeled(cols: Columns) {
    cols.recycling.Some? || cols.salvaging.Some?
  }

  predicate WantRecycling(kws: seq<string>) {
    exists k | 0 <= k < |kws| :: Contains(kws[k], "recycl")
  }

  predicate WantSalvaging(kws: seq<string>) {
    exists k | 0 <= k < |kws| :: Contains(kws[k], "salvag")
  }

  /**
   * Which results columns a labeled table is read for. The source computes
   * the two flags from the keywords when it meets a labeled table; they
   * depend on nothing else, so the model computes them once per walk.
   */
  datatype Wants = Wants(recycling: bool, salvaging: bool)

  function WantsOf(kws: seq<string>): Wants {
    Wants(WantRecycling(kws), WantSalvaging(kws))
  }

  const CellDelimiters: set<char> := {',', ';', '/', '\n'}

  /** One delimited part of a results cell, with `×` read as `x`. */
  function PartMaterial(part: string): Option<Material> {
    KeepParsed(ParseMaterialText(ReplaceChar(part, '×', "x")))
  }

  function CellParts(cell: Node): seq<string> {
    KeepStripped(SplitAny(GetText(cell, " "), CellDelimiters))
  }

  /** The materials listed in one results cell. */
  function CellMaterials(cell: Node): seq<Material> {
    FilterMap(CellParts(cell), PartMaterial)
  }

  /** The cell of column `col`, when the column exists in this row and is wanted. */
  function ColumnMaterials(cells: seq<Node>, col: Option<nat>, wanted: bool): seq<Material> {
    if col.Some? && col.value < |cells| && wanted then CellMaterials(cells[col.value]) else []
  }

  /** One data row: the recycling cell unless only salvaging is wanted, then the salvaging cell unless only recycling is. */
  function LabeledRow(row: Node, cols: Columns, wantR: bool, wantS: bool): seq<Material> {
    var cells := FindAll(row, CellTags);
    ColumnMaterials(cells, cols.recycling, wantR || !wantS) + ColumnMaterials(cells, cols.salvaging, wantS || !wantR)
  }

  function LabeledRows(rows: seq<Node>, cols: Columns, wantR: bool, wantS: bool): seq<Material> {
    if rows == [] then [] else LabeledRow(rows[0], cols, wantR, wantS) + LabeledRows(rows[1..], cols, wantR, wantS)
  }

  // ---------------------------------------------------------------------
  // The forward walk of `_extract_section_materials`.
  // ---------------------------------------------------------------------

  /** What one visited element contributes, and whether the walk goes on. */
  datatype Step = Continue(found: seq<Material>) | Halt(found: seq<Material>)

  function NodeStep(n: Node, w: Wants): Step {
    if !n.Element? then Continue([])
    else if n.tag in HeadingTags then Halt([])
    else if n.tag == "table" then
      var rows := FindAll(n, {"tr"});
      if rows == [] then Continue([])
      else
        var cols := LabeledColumns(rows[0]);
        if IsLabeled(cols) then Halt(LabeledRows(rows[1..], cols, w.recycling, w.salvaging))
        else Continue([])
    else if n.tag in {"ul", "ol"} then Continue(FromList(n))
    else if n.tag in {"div", "p", "section"} then
      match Find(n, {"table"})
      case Some(table) => Continue(FromTable(table))
      case None =>
        match Find(n, {"ul", "ol"})
        case Some(list) => Continue(FromList(list))
        case None => Continue(FromText(n))
    else Continue([])
  }

  /** The materials the steps of `xs` yield, in order, up to and including the first step that halts. */
  function Halting<T>(xs: seq<T>, f: T -> Step): seq<Material> {
    if xs == [] then []
    else match f(xs[0])
      case Halt(found) => found
      case Continue(found) => found + Halting(xs[1..], f)
  }

  function StepOf(w: Wants): Node -> Step {
    n => NodeStep(n, w)
  }

  /** The materials collected from the elements `es`, visited in order until a step halts. */
  function Walk(es: seq<Node>, w: Wants): seq<Material> {
    Halting(es, StepOf(w))
  }

  /** `_extract_section_materials(soup, keywords)` on the document forest `doc`. */
  function SectionMaterials(doc: seq<Node>, kws: seq<string>): seq<Material> {
    var es := Elements(doc);
    match FirstHeading(es, kws)
    case None => []
    case Some(h) => Walk(es[h + 1..], WantsOf(kws))
  }

  // ---------------------------------------------------------------------
  // What the walk promises.
  // ---------------------------------------------------------------------

  /** A heading ends the walk and contributes nothing. */
  lemma HeadingHalts(n: Node, w: Wants)
    requires IsHeading(n)
    ensures NodeStep(n, w) == Halt([])
  {
  }

  /** A halting step with nothing found ends the walk there. */
  lemma {:induction false} HaltingStops<T>(xs: seq<T>, f: T -> Step, j: nat)
    requires j < |xs| && f(xs[j]) == Halt([])
    ensures Halting(xs, f) == Halting(xs[..j], f)
  {
    if j > 0 {
      PrefixTail(xs, j);
      HaltingStops(xs[1..], f, j - 1);
    }
  }

  lemma {:induction false} HaltingAppend<T>(a: seq<T>, b: seq<T>, f: T -> Step)
    requires forall k | 0 <= k < |a| :: f(a[k]).Continue?
    ensures Halting(a + b, f) == Halting(a, f) + Halting(b, f)
  {
    if a == [] {
      AppendEmpty(b);
    } else {
      AppendHeadTail(a, b);
      HaltingAppend(a[1..], b, f);
      AppendAssoc(f(a[0]).found, Halting(a[1..], f), Halting(b, f));
    }
  }

  /** The section ends at the next heading: nothing after it is read. */
  lemma WalkStopsAtHeading(es: seq<Node>, w: Wants, j: nat)
    requires j < |es| && IsHeading(es[j])
    ensures Walk(es, w) == Walk(es[..j], w)
  {
    HeadingHalts(es[j], w);
    HaltingStops(es, StepOf(w), j);
  }

  /** A walk is the concatenation of the walks of its two halves, unless the first half halts. */
  lemma WalkAppend(a: seq<Node>, b: seq<Node>, w: Wants)
    requires forall k | 0 <= k < |a| :: NodeStep(a[k], w).Continue?
    ensures Walk(a + b, w) == Walk(a, w) + Walk(b, w)
  {
    HaltingAppend(a, b, StepOf(w));
  }

  /** The first step that halts ends the walk, and what it found is the last thing collected. */
  lemma {:induction false} HaltingAtFirstHalt<T>(xs: seq<T>, f: T -> Step, j: nat)
    requires j < |xs| && f(xs[j]).Halt?
    requires forall k | 0 <= k < j :: f(xs[k]).Continue?
    ensures Halting(xs, f) == Halting(xs[..j], f) + f(xs[j]).found
  {
    if j == 0 {
      assert xs[..0] == [];
      AppendEmpty(f(xs[0]).found);
    } else {
      PrefixTail(xs, j);
      HaltingAtFirstHalt(xs[1..], f, j - 1);
      AppendAssoc(f(xs[0]).found, Halting(xs[1..][..j - 1], f), f(xs[j]).found);
    }
  }

  /**
   * A table whose header row labels a recycling or a salvaging column ends
   * the walk: its data rows are read and nothing after the table is.
   */
  lemma LabeledTableEndsWalk(es: seq<Node>, w: Wants, j: nat)
    requires j < |es| && es[j].Element? && es[j].tag == "table"
    requires FindAll(es[j], {"tr"}) != [] && IsLabeled(LabeledColumns(FindAll(es[j], {"tr"})[0]))
    requires forall k | 0 <= k < j :: NodeStep(es[k], w).Continue?
    ensures Walk(es, w) == Walk(es[..j], w)
      + LabeledRows(FindAll(es[j], {"tr"})[1..], LabeledColumns(FindAll(es[j], {"tr"})[0]), w.recycling, w.salvaging)
  {
    var rows := FindAll(es[j], {"tr"});
    LabeledTableHalts(es[j], w);
    assert StepOf(w)(es[j]) == Halt(LabeledRows(rows[1..], LabeledColumns(rows[0]), w.recycling, w.salvaging));
    forall k | 0 <= k < j
      ensures StepOf(w)(es[k]).Continue?
    {
      assert NodeStep(es[k], w).Continue?;
    }
    HaltingAtFirstHalt(es, StepOf(w), j);
  }

  lemma LabeledTableHalts(n: Node, w: Wants)
    requires n.Element? && n.tag == "table"
    requires FindAll(n, {"tr"}) != [] && IsLabeled(LabeledColumns(FindAll(n, {"tr"})[0]))
    ensures NodeStep(n, w) == Halt(LabeledRows(FindAll(n, {"tr"})[1..], LabeledColumns(FindAll(n, {"tr"})[0]), w.recycling, w.salvaging))
  {
  }

  /**
   * A list inside a `div` is read twice: once through the container's
   * `find(['ul', 'ol'])`, and again when the walk, which enters the
   * container, reaches the list itself.
   */
  lemma ContainedListReadTwice(items: seq<Node>, w: Wants)
    requires Find(Element("div", [Element("ul", items)]), {"table"}).None?
    ensures var list := Element("ul", items);
      Walk(Elements([Element("div", [list])]), w) == FromList(list) + FromList(list) + Walk(Elements(items), w)
  {
    var list := Element("ul", items);
    var div := Element("div", [list]);
    ElementsOfOne(list);
    ElementsOfOne(div);
    assert Find(div, {"ul", "ol"}) == Some(list) by {
      assert Descendants(div) == [list] + Elements(items);
      assert WithTag(Descendants(div), {"ul", "ol"})[0] == list;
    }
    ContainerListStep(div, list, w);
    assert NodeStep(list, w) == Continue(FromList(list));
    var rest := Elements(items);
    assert Elements([div]) == [div] + ([list] + rest);
    WalkTwoSteps(div, list, rest, w);
    AppendAssoc(FromList(list), FromList(list), Walk(rest, w));
  }

  lemma ElementsOfOne(n: Node)
    requires n.Element?
    ensures Elements([n]) == [n] + Elements(n.children)
  {
    assert [n][1..] == [];
  }

  lemma ContainerListStep(div: Node, list: Node, w: Wants)
    requires div.Element? && div.tag == "div"
    requires Find(div, {"table"}).None? && Find(div, {"ul", "ol"}) == Some(list)
    ensures NodeStep(div, w) == Continue(FromList(list))
  {
  }

  lemma WalkTwoSteps(a: Node, b: Node, rest: seq<Node>, w: Wants)
    requires NodeStep(a, w).Continue? && NodeStep(b, w).Continue?
    ensures Walk([a] + ([b] + rest), w) == NodeStep(a, w).found + (NodeStep(b, w).found + Walk(rest, w))
  {
    assert StepOf(w)(a) == NodeStep(a, w) && StepOf(w)(b) == NodeStep(b, w);
    assert ([a] + ([b] + rest))[1..] == [b] + rest;
    assert ([b] + rest)[1..] == rest;
    assert Halting([b] + rest, StepOf(w)) == NodeStep(b, w).found + Halting(rest, StepOf(w));
  }

  /** No heading mentions a keyword: the section yields nothing. */
  lemma NoSectionHeadingNoMaterials(doc: seq<Node>, kws: seq<string>)
    requires forall j | 0 <= j < |Elements(doc)| :: !IsSectionHeading(Elements(doc)[j], kws)
    ensures SectionMaterials(doc, kws) == []
  {
    FirstHeadingMeaning(Elements(doc), kws);
  }

  /** The section starts right after the first heading, in document order, that mentions a keyword. */
  lemma SectionStartsAtFirstHeading(doc: seq<Node>, kws: seq<string>, h: nat)
    requires h < |Elements(doc)| && IsSectionHeading(Elements(doc)[h], kws)
    requires forall j | 0 <= j < h :: !IsSectionHeading(Elements(doc)[j], kws)
    ensures SectionMaterials(doc, kws) == Walk(Elements(doc)[h + 1..], WantsOf(kws))
  {
    FirstHeadingMeaning(Elements(doc), kws);
  }

  /** The recycling keyword list asks for the recycling column only. */
  lemma RecyclingKeywordsColumn()
    ensures WantRecycling(RecyclingKeywords) && !WantSalvaging(RecyclingKeywords)
  {
    assert "recycl" <= "recycling";
    assert Contains(RecyclingKeywords[0], "recycl");
    NoneContains(RecyclingKeywords, "salvag", 3);
  }

  /** The salvaging keyword list asks for the salvaging column only. */
  lemma SalvagingKeywordsColumn()
    ensures WantSalvaging(SalvagingKeywords) && !WantRecycling(SalvagingKeywords)
  {
    assert "salvag" <= "salvaging";
    assert Contains(SalvagingKeywords[0], "salvag");
    NoneContains(SalvagingKeywords, "recycl", 3);
  }

  /** A text lacking one of the characters of `p` does not contain `p`. */
  lemma NotContainsWhenCharMissing(s: string, p: string, i: nat)
    requires i < |p| && !HasChar(s, p[i])
    ensures !Contains(s, p)
  {
    ContainsIsOccurrence(s, p);
  }

  /** No keyword of the list contains `p` when none has the character `p[i]`. */
  lemma NoneContains(kws: seq<string>, p: string, i: nat)
    requires i < |p| && forall k | 0 <= k < |kws| :: !HasChar(kws[k], p[i])
    ensures forall k | 0 <= k < |kws| :: !Contains(kws[k], p)
  {
    forall k | 0 <= k < |kws| ensures !Contains(kws[k], p) {
      NotContainsWhenCharMissing(kws[k], p, i);
    }
  }

  /** With the salvaging keywords, a labeled row yields its salvaging cell and never reads the recycling cell. */
  lemma SalvagingReadsOnlySalvagingColumn(row: Node, cols: Columns)
    ensures LabeledRow(row, cols, WantRecycling(SalvagingKeywords), WantSalvaging(SalvagingKeywords))
         == ColumnMaterials(FindAll(row, CellTags), cols.salvaging, true)
  {
    SalvagingKeywordsColumn();
  }

  /** With the recycling keywords, a labeled row yields its recycling cell and never reads the salvaging cell. */
  lemma RecyclingReadsOnlyRecyclingColumn(row: Node, cols: Columns)
    ensures LabeledRow(row, cols, WantRecycling(RecyclingKeywords), WantSalvaging(RecyclingKeywords))
         == ColumnMaterials(FindAll(row, CellTags), cols.recycling, true)
  {
    RecyclingKeywordsColumn();
  }

  // ---------------------------------------------------------------------
  // `extract_recycling_data`: the heading naming both kinds, then its siblings.
  // ---------------------------------------------------------------------

  predicate IsRecyclingHeading(n: Node) {
    IsHeading(n) && Contains(HeadingText(n), "recycled") && Contains(HeadingText(n), "salvaged")
  }

  function FirstRecyclingHeadingFrom(ls: seq<Located>, i: nat): (r: Option<nat>)
    requires i <= |ls|
    ensures r.Some? ==> i <= r.value < |ls| && IsRecyclingHeading(ls[r.value].node)
    ensures r.Some? ==> forall j | i <= j < r.value :: !IsRecyclingHeading(ls[j].node)
    ensures r.None? ==> forall j | i <= j < |ls| :: !IsRecyclingHeading(ls[j].node)
    decreases |ls| - i
  {
    if i == |ls| then None
    else if IsRecyclingHeading(ls[i].node) then Some(i)
    else FirstRecyclingHeadingFrom(ls, i + 1)
  }

  /** What one sibling contributes: tables by rows, lists by items, `div`/`p` by lines of text. */
  function SiblingMaterials(n: Node): seq<Material> {
    if !n.Element? then []
    else if n.tag == "table" then FromTable(n)
    else if n.tag in {"ul", "ol"} then FromList(n)
    else if n.tag in {"div", "p"} then FromText(n)
    else []
  }

  /** The siblings up to (not including) the next heading. */
  function SiblingWalk(sibs: seq<Node>): seq<Material> {
    if sibs == [] || IsHeading(sibs[0]) then []
    else SiblingMaterials(sibs[0]) + SiblingWalk(sibs[1..])
  }

  /** `extract_recycling_data` on the document forest `doc`. */
  function RecyclingData(doc: seq<Node>): seq<Material> {
    var ls := LocatedElements(doc);
    match FirstRecyclingHeadingFrom(ls, 0)
    case None => []
    case Some(i) => SiblingWalk(ls[i].after)
  }

  /** The sibling walk reads only the heading-free prefix of the siblings. */
  lemma {:induction false} SiblingWalkStopsAtHeading(sibs: seq<Node>, j: nat)
    requires j < |sibs| && IsHeading(sibs[j])
    ensures SiblingWalk(sibs) == SiblingWalk(sibs[..j])
  {
    if j == 0 {
      assert sibs[..j] == [];
    } else if !IsHeading(sibs[0]) {
      PrefixTail(sibs, j);
      SiblingWalkStopsAtHeading(sibs[1..], j - 1);
    }
  }

  // ---------------------------------------------------------------------
  // The loops the scraper runs, proved against the functions above.
  // ---------------------------------------------------------------------

  /** The nested heading/keyword loops of `_extract_section_materials`. */
  method FindSectionHeading(es: seq<Node>, kws: seq<string>) returns (h: Option<nat>)
    ensures h == FirstHeading(es, kws)
  {
    var i := 0;
    while i < |es|
      invariant 0 <= i <= |es|
      invariant FirstHeading(es, kws) == FirstHeadingFrom(es, kws, i)
    {
      if IsHeading(es[i]) {
        var text := HeadingText(es[i]);
        var j := 0;
        var hit := false;
        while j < |kws| && !hit
          invariant 0 <= j <= |kws|
          invariant hit <==> exists k | 0 <= k < j :: Contains(text, kws[k])
        {
          if Contains(text, kws[j]) {
            hit := true;
          }
          j := j + 1;
        }
        if hit {
          return Some(i);
        }
      }
      i := i + 1;
    }
    return None;
  }

  /** The header loop: the last column naming recycling and the last naming salvaging. */
  method FindLabeledColumns(header: Node) returns (cols: Columns)
    ensures cols == LabeledColumns(header)
  {
    var texts := HeaderTexts(FindAll(header, CellTags));
    var recycling: Option<nat> := None;
    var salvaging: Option<nat> := None;
    var i := 0;
    while i < |texts|
      invariant 0 <= i <= |texts|
      invariant recycling == LastContaining(texts[..i], "recycling")
      invariant salvaging == LastContaining(texts[..i], "salvag")
    {
      LastContainingSnoc(texts, i, "recycling");
      LastContainingSnoc(texts, i, "salvag");
      if Contains(texts[i], "recycling") {
        recycling := Some(i);
      }
      if Contains(texts[i], "salvag") {
        salvaging := Some(i);
      }
      i := i + 1;
    }
    PrefixAll(texts);
    cols := Columns(recycling, salvaging);
  }

  /** The parts loop of one results cell. */
  method ExtractCell(cell: Node) returns (ms: seq<Material>)
    ensures ms == CellMaterials(cell)
  {
    ms := CollectMaterials(CellParts(cell), PartMaterial);
  }


  lemma {:induction false} LabeledRowsAppend(a: seq<Node>, b: seq<Node>, cols: Columns, wantR: bool, wantS: bool)
    ensures LabeledRows(a + b, cols, wantR, wantS) == LabeledRows(a, cols, wantR, wantS) + LabeledRows(b, cols, wantR, wantS)
  {
    if a == [] {
      AppendEmpty(b);
    } else {
      AppendHeadTail(a, b);
      LabeledRowsAppend(a[1..], b, cols, wantR, wantS);
      AppendAssoc(LabeledRow(a[0], cols, wantR, wantS), LabeledRows(a[1..], cols, wantR, wantS), LabeledRows(b, cols, wantR, wantS));
    }
  }

  lemma LabeledRowsSnoc(rows: seq<Node>, i: nat, cols: Columns, wantR: bool, wantS: bool)
    requires i < |rows|
    ensures LabeledRows(rows[..i + 1], cols, wantR, wantS) == LabeledRows(rows[..i], cols, wantR, wantS) + LabeledRow(rows[i], cols, wantR, wantS)
  {
    PrefixSnoc(rows, i);
    LabeledRowsAppend(rows[..i], [rows[i]], cols, wantR, wantS);
  }

  /** One data row of a labeled table. */
  method ExtractLabeledRow(row: Node, cols: Columns, wantR: bool, wantS: bool) returns (ms: seq<Material>)
    ensures ms == LabeledRow(row, cols, wantR, wantS)
  {
    var cells := FindAll(row, CellTags);
    ms := [];
    if cols.recycling.Some? && cols.recycling.value < |cells| && (wantR || !wantS) {
      ms := ExtractCell(cells[cols.recycling.value]);
    }
    if cols.salvaging.Some? && cols.salvaging.value < |cells| && (wantS || !wantR) {
      var found := ExtractCell(cells[cols.salvaging.value]);
      ms := ms + found;
    }
  }

  /** The data-row loop over a labeled table. */
  method ExtractLabeledRows(rows: seq<Node>, cols: Columns, wantR: bool, wantS: bool) returns (ms: seq<Material>)
    ensures ms == LabeledRows(rows, cols, wantR, wantS)
  {
    ms := [];
    var i := 0;
    while i < |rows|
      invariant 0 <= i <= |rows|
      invariant ms == LabeledRows(rows[..i], cols, wantR, wantS)
    {
      LabeledRowsSnoc(rows, i, cols, wantR, wantS);
      var found := ExtractLabeledRow(rows[i], cols, wantR, wantS);
      ms := ms + found;
      i := i + 1;
    }
    PrefixAll(rows);
  }

  /** The walk from index `j` of `xs` on, by index rather than by slice (the loop's view). */
  function HaltingFrom<T>(xs: seq<T>, j: nat, f: T -> Step): seq<Material>
    requires j <= |xs|
    decreases |xs| - j
  {
    if j == |xs| then []
    else match f(xs[j])
      case Halt(found) => found
      case Continue(found) => found + HaltingFrom(xs, j + 1, f)
  }

  lemma {:induction false} HaltingFromIsHalting<T>(xs: seq<T>, j: nat, f: T -> Step)
    requires j <= |xs|
    ensures HaltingFrom(xs, j, f) == Halting(xs[j..], f)
    decreases |xs| - j
  {
    if j < |xs| {
      SuffixStep(xs, j);
      HaltingFromIsHalting(xs, j + 1, f);
    }
  }

  lemma SiblingWalkFrom(sibs: seq<Node>, j: nat)
    requires j < |sibs| && !IsHeading(sibs[j])
    ensures SiblingWalk(sibs[j..]) == SiblingMaterials(sibs[j]) + SiblingWalk(sibs[j + 1..])
  {
    SuffixStep(sibs, j);
  }

  /** One step of the forward walk. */
  method VisitNode(n: Node, w: Wants) returns (step: Step)
    ensures step == NodeStep(n, w)
  {
    if !n.Element? {
      return Continue([]);
    }
    if n.tag in HeadingTags {
      return Halt([]);
    }
    if n.tag == "table" {
      var rows := FindAll(n, {"tr"});
      if rows == [] {
        return Continue([]);
      }
      var cols := FindLabeledColumns(rows[0]);
      if IsLabeled(cols) {
        var found := ExtractLabeledRows(rows[1..], cols, w.recycling, w.salvaging);
        return Halt(found);
      }
      return Continue([]);
    }
    if n.tag in {"ul", "ol"} {
      var found := ExtractFromList(n);
      return Continue(found);
    }
    if n.tag in {"div", "p", "section"} {
      var table := Find(n, {"table"});
      if table.Some? {
        var found := ExtractFromTable(table.value);
        return Continue(found);
      }
      var list := Find(n, {"ul", "ol"});
      if list.Some? {
        var found := ExtractFromList(list.value);
        return Continue(found);
      }
      var found := ExtractFromText(n);
      return Continue(found);
    }
    return Continue([]);
  }

  /** The forward walk from element `start` on, until a step halts. */
  method WalkForward(es: seq<Node>, start: nat, w: Wants) returns (ms: seq<Material>)
    requires start <= |es|
    ensures ms == HaltingFrom(es, start, StepOf(w))
  {
    ms := [];
    var j := start;
    while j < |es|
      invariant start <= j <= |es|
      invariant ms + HaltingFrom(es, j, StepOf(w)) == HaltingFrom(es, start, StepOf(w))
    {
      var step := VisitNode(es[j], w);
      assert step == StepOf(w)(es[j]);
      if step.Halt? {
        return ms + step.found;
      }
      AppendAssoc(ms, step.found, HaltingFrom(es, j + 1, StepOf(w)));
      ms := ms + step.found;
      j := j + 1;
    }
  }

  /** `_extract_section_materials`. */
  method ExtractSectionMaterials(doc: seq<Node>, kws: seq<string>) returns (ms: seq<Material>)
    ensures ms == SectionMaterials(doc, kws)
  {
    var es := Elements(doc);
    var heading := FindSectionHeading(es, kws);
    if heading.None? {
      return [];
    }
    var w := WantsOf(kws);
    ms := WalkForward(es, heading.value + 1, w);
    HaltingFromIsHalting(es, heading.value + 1, StepOf(w));
  }

  /** What one sibling contributes, by its tag. */
  method VisitSibling(n: Node) returns (ms: seq<Material>)
    ensures ms == SiblingMaterials(n)
  {
    ms := [];
    if n.Element? && n.tag == "table" {
      ms := ExtractFromTable(n);
    } else if n.Element? && n.tag in {"ul", "ol"} {
      ms := ExtractFromList(n);
    } else if n.Element? && n.tag in {"div", "p"} {
      ms := ExtractFromText(n);
    }
  }

  /** The sibling loop of `extract_recycling_data`. */
  method WalkSiblings(sibs: seq<Node>) returns (ms: seq<Material>)
    ensures ms == SiblingWalk(sibs)
  {
    ms := [];
    var j := 0;
    while j < |sibs| && !IsHeading(sibs[j])
      invariant 0 <= j <= |sibs|
      invariant ms + SiblingWalk(sibs[j..]) == SiblingWalk(sibs)
    {
      SiblingWalkFrom(sibs, j);
      var found := VisitSibling(sibs[j]);
      AppendAssoc(ms, found, SiblingWalk(sibs[j + 1..]));
      ms := ms + found;
      j := j + 1;
    }
    if j < |sibs| {
      SuffixStep(sibs, j);
    } else {
      assert sibs[j..] == [];
    }
  }

  /** `extract_recycling_data`: the heading loop, then the sibling walk. */
  method ExtractRecyclingData(doc: seq<Node>) returns (ms: seq<Material>)
    ensures ms == RecyclingData(doc)
  {
    var ls := LocatedElements(doc);
    var i := 0;
    while i < |ls| && !IsRecyclingHeading(ls[i].node)
      invariant 0 <= i <= |ls|
      invariant FirstRecyclingHeadingFrom(ls, 0) == FirstRecyclingHeadingFrom(ls, i)
    {
      i := i + 1;
    }
    if i == |ls| {
      return [];
    }
    ms := WalkSiblings(ls[i].after);
  }
}
