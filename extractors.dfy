/**
 * The three generic material extractors of the scraper: rows of a table
 * (`_extract_from_table`), items of a list (`_extract_from_list`) and lines
 * of an element's text (`_extract_from_text`).  Each is specified by a
 * function that keeps, in order, what one source unit (row, list item,
 * line) yields, and implemented by the loop the scraper runs.
 */
module Extractors {
  import opened Wrappers
  import opened Text
  import opened Html
  import opened MaterialParser
  import opened Catalog
  import opened Seqs

  /** Apply `f` to every unit and keep the materials it yields, in order. */
  function FilterMap<T>(xs: seq<T>, f: T -> Option<Material>): (r: seq<Material>)
    ensures |r| <= |xs|
  {
    if xs == [] then []
    else (if f(xs[0]).Some? then [f(xs[0]).value] else []) + FilterMap(xs[1..], f)
  }

  lemma {:induction false} FilterMapAppend<T>(xs: seq<T>, ys: seq<T>, f: T -> Option<Material>)
    ensures FilterMap(xs + ys, f) == FilterMap(xs, f) + FilterMap(ys, f)
  {
    if xs == [] {
      AppendEmpty(ys);
    } else {
      AppendHeadTail(xs, ys);
      FilterMapAppend(xs[1..], ys, f);
      var head := if f(xs[0]).Some? then [f(xs[0]).value] else [];
      AppendAssoc(head, FilterMap(xs[1..], f), FilterMap(ys, f));
    }
  }

  lemma FilterMapSingle<T>(x: T, f: T -> Option<Material>)
    ensures FilterMap([x], f) == if f(x).Some? then [f(x).value] else []
  {
    assert [x][1..] == [];
  }

  /** What one more unit adds to the materials of a prefix (the step of every extraction loop). */
  lemma FilterMapSnoc<T>(xs: seq<T>, i: nat, f: T -> Option<Material>)
    requires i < |xs|
    ensures FilterMap(xs[..i + 1], f) == FilterMap(xs[..i], f) + if f(xs[i]).Some? then [f(xs[i]).value] else []
  {
    PrefixSnoc(xs, i);
    FilterMapAppend(xs[..i], [xs[i]], f);
    FilterMapSingle(xs[i], f);
  }

  /** Every kept material comes from some unit, and every unit that yields one is kept. */
  lemma {:induction false} FilterMapMembers<T>(xs: seq<T>, f: T -> Option<Material>)
    ensures forall m | m in FilterMap(xs, f) :: exists k | 0 <= k < |xs| :: f(xs[k]) == Some(m)
    ensures forall k | 0 <= k < |xs| && f(xs[k]).Some? :: f(xs[k]).value in FilterMap(xs, f)
  {
    if xs != [] {
      FilterMapMembers(xs[1..], f);
      forall m | m in FilterMap(xs, f) ensures exists k | 0 <= k < |xs| :: f(xs[k]) == Some(m) {
        if m !in FilterMap(xs[1..], f) {
          assert f(xs[0]) == Some(m);
        } else {
          var k :| 0 <= k < |xs[1..]| && f(xs[1..][k]) == Some(m);
          assert f(xs[k + 1]) == Some(m);
        }
      }
      forall k | 0 <= k < |xs| && f(xs[k]).Some? ensures f(xs[k]).value in FilterMap(xs, f) {
        if k > 0 {
          assert xs[k] == xs[1..][k - 1];
        }
      }
    }
  }

  /** `if material and quantity is not None`: a parse is kept only when its name is not empty. */
  function KeepParsed(p: Option<Parsed>): (r: Option<Material>)
    ensures r.Some? <==> p.Some? && p.value.name != []
    ensures r.Some? ==> r.value == Material(p.value.name, p.value.quantity)
  {
    match p
    case Some(Parsed(n, q)) => if n != [] then Some(Material(n, q)) else None
    case None => None
  }

  const CellTags: set<string> := {"td", "th"}

  /**
   * One table row: at least two cells, a non-empty first-cell text and a
   * digit in the second cell; the name is the first cell's text and the
   * quantity the first digit run of the second's.
   */
  function RowMaterial(row: Node): (r: Option<Material>)
    ensures r.Some? <==>
      var cells := FindAll(row, CellTags);
      |cells| >= 2 && GetText(cells[0], "") != [] && ParseQuantity(GetText(cells[1], "")).Some?
    ensures r.Some? ==> r.value.name == GetText(FindAll(row, CellTags)[0], "")
    ensures r.Some? ==> r.value.quantity == ParseQuantity(GetText(FindAll(row, CellTags)[1], "")).value
  {
    var cells := FindAll(row, CellTags);
    if |cells| < 2 then None
    else
      var name := GetText(cells[0], "");
      var q := ParseQuantity(GetText(cells[1], ""));
      if name != [] && q.Some? then Some(Material(name, q.value)) else None
  }

  /** `rows[1:]`: every row but the first (the header). */
  function DataRows(table: Node): (r: seq<Node>)
    ensures |r| == if |FindAll(table, {"tr"})| == 0 then 0 else |FindAll(table, {"tr"})| - 1
    ensures forall k | 0 <= k < |r| :: r[k] == FindAll(table, {"tr"})[k + 1]
  {
    var rows := FindAll(table, {"tr"});
    if rows == [] then [] else rows[1..]
  }

  /** `_extract_from_table`. */
  function FromTable(table: Node): seq<Material> {
    FilterMap(DataRows(table), RowMaterial)
  }

  /** One list item: its stripped text parsed by `_parse_material_text`. */
  function ItemMaterial(li: Node): Option<Material> {
    KeepParsed(ParseMaterialText(GetText(li, "")))
  }

  /** `_extract_from_list`: every `li` descendant, nested ones included. */
  function FromList(list: Node): seq<Material> {
    FilterMap(FindAll(list, {"li"}), ItemMaterial)
  }

  function LineMaterial(line: string): Option<Material> {
    KeepParsed(ParseMaterialText(line))
  }

  /** `_extract_from_text`: the stripped text, split on newlines, one parse per line. */
  function FromText(n: Node): seq<Material> {
    FilterMap(Split(GetText(n, ""), '\n'), LineMaterial)
  }

  // ---------------------------------------------------------------------
  // What the extractors promise.
  // ---------------------------------------------------------------------

  /**
   * The header row never contributes; each material is a data row's first
   * two cells, and every data row that yields a material is kept.
   */
  lemma TableMaterialsFromDataRows(table: Node)
    ensures |FromTable(table)| <= |DataRows(table)|
    ensures forall m | m in FromTable(table) ::
      exists k | 0 <= k < |DataRows(table)| :: RowMaterial(DataRows(table)[k]) == Some(m)
    ensures forall k | 0 <= k < |DataRows(table)| && RowMaterial(DataRows(table)[k]).Some? ::
      RowMaterial(DataRows(table)[k]).value in FromTable(table)
    ensures forall m | m in FromTable(table) :: m.name != []
  {
    FilterMapMembers(DataRows(table), RowMaterial);
  }

  /** Each list material is one `li`'s parse, with a non-empty name; every `li` that parses to a named material is kept. */
  lemma ListMaterialsFromItems(list: Node)
    ensures |FromList(list)| <= |FindAll(list, {"li"})|
    ensures forall m | m in FromList(list) ::
      exists k | 0 <= k < |FindAll(list, {"li"})| ::
        ParseMaterialText(GetText(FindAll(list, {"li"})[k], "")) == Some(Parsed(m.name, m.quantity))
    ensures forall k | 0 <= k < |FindAll(list, {"li"})| && ItemMaterial(FindAll(list, {"li"})[k]).Some? ::
      ItemMaterial(FindAll(list, {"li"})[k]).value in FromList(list)
    ensures forall m | m in FromList(list) :: m.name != []
  {
    FilterMapMembers(FindAll(list, {"li"}), ItemMaterial);
  }

  /** `m` is what one of the lines parses to. */
  predicate FromLine(lines: seq<string>, m: Material) {
    exists k | 0 <= k < |lines| :: LineMaterial(lines[k]) == Some(m)
  }

  /** What the text extractor keeps of a list of lines: one material per parsing line, each from its line. */
  lemma LineMaterials(lines: seq<string>)
    ensures forall m | m in FilterMap(lines, LineMaterial) :: FromLine(lines, m) && m.name != [] && !HasChar(m.name, '\n')
    ensures forall k | 0 <= k < |lines| && LineMaterial(lines[k]).Some? :: LineMaterial(lines[k]).value in FilterMap(lines, LineMaterial)
  {
    FilterMapMembers(lines, LineMaterial);
    forall m | m in FilterMap(lines, LineMaterial) ensures FromLine(lines, m) && m.name != [] && !HasChar(m.name, '\n') {
      var k :| 0 <= k < |lines| && LineMaterial(lines[k]) == Some(m);
      ParsedNameIsOneLine(lines[k]);
    }
  }

  /**
   * A text material comes from one line and never spans two: its name holds
   * no newline; every line that parses to a named material is kept.
   */
  lemma TextMaterialsAreOneLine(n: Node)
    ensures forall m | m in FromText(n) :: FromLine(Split(GetText(n, ""), '\n'), m) && m.name != [] && !HasChar(m.name, '\n')
    ensures var lines := Split(GetText(n, ""), '\n');
      forall k | 0 <= k < |lines| && LineMaterial(lines[k]).Some? :: LineMaterial(lines[k]).value in FromText(n)
  {
    LineMaterials(Split(GetText(n, ""), '\n'));
  }

  // ---------------------------------------------------------------------
  // The loops the scraper runs, proved against the functions above.
  // ---------------------------------------------------------------------

  /** The loop every extractor runs: one unit at a time, appending what the unit yields. */
  method CollectMaterials<T>(xs: seq<T>, f: T -> Option<Material>) returns (ms: seq<Material>)
    ensures ms == FilterMap(xs, f)
  {
    ms := [];
    var i := 0;
    while i < |xs|
      invariant 0 <= i <= |xs|
      invariant ms == FilterMap(xs[..i], f)
    {
      FilterMapSnoc(xs, i, f);
      var m := f(xs[i]);
      if m.Some? {
        ms := ms + [m.value];
      }
      i := i + 1;
    }
    PrefixAll(xs);
  }

  /** `_extract_from_table`: no rows, no materials; otherwise every row after the header. */
  method ExtractFromTable(table: Node) returns (ms: seq<Material>)
    ensures ms == FromTable(table)
  {
    var rows := FindAll(table, {"tr"});
    if rows == [] {
      return [];
    }
    ms := CollectMaterials(rows[1..], RowMaterial);
  }

  /** `_extract_from_list`. */
  method ExtractFromList(list: Node) returns (ms: seq<Material>)
    ensures ms == FromList(list)
  {
    ms := CollectMaterials(FindAll(list, {"li"}), ItemMaterial);
  }

  /** `_extract_from_text`. */
  method ExtractFromText(n: Node) returns (ms: seq<Material>)
    ensures ms == FromText(n)
  {
    ms := CollectMaterials(Split(GetText(n, ""), '\n'), LineMaterial);
  }
}
