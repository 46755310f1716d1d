/**
 * `HTMLGenerator`: loading and checking the catalog file (`load_data`) and
 * the material filter list of the page (`generate_checkboxes_html`): one
 * checkbox per distinct material name, in ascending order, each with an id
 * slug derived from the name.  Reading the file is a parameter (missing, not
 * JSON, or the parsed JSON value); the page's HTML text is not modelled.
 */
module Generator {
  import opened Wrappers
  import opened Text
  import opened Catalog
  import opened Seqs

  /** What opening and `json.load`-ing the data file gives. */
  datatype DataFile = Missing | Malformed(detail: string) | Parsed(json: Json)

  /** The exceptions `load_data` raises, one constructor per distinct message. */
  datatype LoadError =
    | FileNotFound(path: string)
    | InvalidJsonFile(detail: string)
    | AttributeError(typeName: string)
    | MissingCategories
    | CategoriesNotDict
    | CategoryNotList(category: string)
    | ItemNotDict
    | MissingField(field: string)
    | MaterialsNotList

  datatype ExceptionClass = FileNotFoundErrorClass | ValueErrorClass | AttributeErrorClass

  /** The Python exception class of each error. */
  function ClassOf(e: LoadError): ExceptionClass {
    match e
    case FileNotFound(_) => FileNotFoundErrorClass
    case AttributeError(_) => AttributeErrorClass
    case _ => ValueErrorClass
  }

  /** The Python type name of a JSON value, as `json.load` builds it. */
  function TypeName(j: Json): string {
    match j
    case JNull => "NoneType"
    case JBool(_) => "bool"
    case JInt(_) => "int"
    case JReal(_) => "float"
    case JStr(_) => "str"
    case JArray(_) => "list"
    case JObject(_) => "dict"
  }

  /** The message of each error. */
  function Message(e: LoadError): string {
    match e
    case FileNotFound(path) => "Data file not found: " + path + "\nPlease run with --scrape flag to generate the data file."
    case InvalidJsonFile(detail) => "Invalid JSON file: " + detail
    case AttributeError(t) => "'" + t + "' object has no attribute 'get'"
    case MissingCategories => "Invalid JSON: missing 'categories' key"
    case CategoriesNotDict => "Invalid JSON: 'categories' must be a dictionary"
    case CategoryNotList(name) => "Invalid JSON: category '" + name + "' must contain a list of items"
    case ItemNotDict => "Invalid JSON: items must be dictionaries"
    case MissingField(field) => "Invalid JSON: item missing required field '" + field + "'"
    case MaterialsNotList => "Invalid JSON: item materials must be a list"
  }

  const RequiredFields: seq<string> := ["name", "url", "materials"]

  predicate HasKey(fields: seq<(string, Json)>, key: string) {
    Get(fields, key).Some?
  }

  // ---------------------------------------------------------------------
  // The checks of `load_data`, in the order it makes them.
  // ---------------------------------------------------------------------

  /** The first error the checks of `xs`, made in order, raise. */
  function FirstError<T>(xs: seq<T>, check: T -> Option<LoadError>): Option<LoadError> {
    if xs == [] then None
    else if check(xs[0]).Some? then check(xs[0])
    else FirstError(xs[1..], check)
  }

  lemma {:induction false} FirstErrorMeaning<T>(xs: seq<T>, check: T -> Option<LoadError>)
    ensures FirstError(xs, check).None? <==> forall k | 0 <= k < |xs| :: check(xs[k]).None?
    ensures FirstError(xs, check).Some? ==>
      exists k | 0 <= k < |xs| :: FirstError(xs, check) == check(xs[k]) && forall j | 0 <= j < k :: check(xs[j]).None?
  {
    if xs != [] && check(xs[0]).None? {
      FirstErrorMeaning(xs[1..], check);
      if FirstError(xs, check).Some? {
        var k :| 0 <= k < |xs[1..]| && FirstError(xs[1..], check) == check(xs[1..][k]) && forall j | 0 <= j < k :: check(xs[1..][j]).None?;
        assert FirstError(xs, check) == check(xs[k + 1]);
        forall j | 0 <= j < k + 1 ensures check(xs[j]).None? {
          if j > 0 {
            assert xs[j] == xs[1..][j - 1];
          }
        }
      }
      if forall k | 0 <= k < |xs[1..]| :: check(xs[1..][k]).None? {
        forall k | 0 <= k < |xs| ensures check(xs[k]).None? {
          if k > 0 {
            assert xs[k] == xs[1..][k - 1];
          }
        }
      }
    }
  }

  /** The check at `i` raises when every earlier one passed. */
  lemma {:induction false} FirstErrorAt<T>(xs: seq<T>, i: nat, check: T -> Option<LoadError>)
    requires i < |xs| && check(xs[i]).Some?
    requires forall k | 0 <= k < i :: check(xs[k]).None?
    ensures FirstError(xs, check) == check(xs[i])
    decreases i
  {
    if i > 0 {
      assert check(xs[0]).None?;
      forall k | 0 <= k < i - 1 ensures check(xs[1..][k]).None? {
        assert xs[1..][k] == xs[k + 1];
      }
      FirstErrorAt(xs[1..], i - 1, check);
    }
  }

  /** `if field not in item: raise ...`. */
  function FieldError(fields: seq<(string, Json)>): string -> Option<LoadError> {
    (field: string) => if HasKey(fields, field) then None else Some(MissingField(field))
  }

  /** The checks of one item: a dictionary, the required fields in order, then a list of materials. */
  function ItemError(item: Json): Option<LoadError> {
    match item
    case JObject(fs) =>
      (match FirstError(RequiredFields, FieldError(fs))
       case Some(e) => Some(e)
       case None => if Get(fs, "materials").value.JArray? then None else Some(MaterialsNotList))
    case _ => Some(ItemNotDict)
  }

  /** The checks of one category: a list, then each of its items in order. */
  function CategoryError(entry: (string, Json)): Option<LoadError> {
    match entry.1
    case JArray(items) => FirstError(items, ItemError)
    case _ => Some(CategoryNotList(entry.0))
  }

  /** `data.get('metadata', {}).get(...)` succeeds: the metadata is absent or a dictionary. */
  predicate MetadataReadable(fields: seq<(string, Json)>) {
    Get(fields, "metadata").None? || Get(fields, "metadata").value.JObject?
  }

  /** The first error `load_data` raises for a parsed document, if any. */
  function Validate(data: Json): Option<LoadError> {
    match data
    case JObject(fs) =>
      if !MetadataReadable(fs) then Some(AttributeError(TypeName(Get(fs, "metadata").value)))
      else (match Get(fs, "categories")
            case None => Some(MissingCategories)
            case Some(JObject(cs)) => FirstError(cs, CategoryError)
            case Some(_) => Some(CategoriesNotDict))
    case _ => Some(AttributeError(TypeName(data)))
  }

  /** `data.get('metadata', {}).get('version', '1.0')`, for a document whose metadata is readable. */
  function Version(fields: seq<(string, Json)>): Json
    requires MetadataReadable(fields)
  {
    match Get(fields, "metadata")
    case None => JStr("1.0")
    case Some(md) =>
      (match Get(md.fields, "version")
       case Some(v) => v
       case None => JStr("1.0"))
  }

  /** `load_data`'s result for the file it finds at `path`. */
  function Load(path: string, file: DataFile): Result<Json, LoadError> {
    match file
    case Missing => Err(FileNotFound(path))
    case Malformed(detail) => Err(InvalidJsonFile(detail))
    case Parsed(data) =>
      (match Validate(data)
       case Some(e) => Err(e)
       case None => Ok(data))
  }

  // ---------------------------------------------------------------------
  // What the checks accept, stated without their order.
  // ---------------------------------------------------------------------

  predicate ItemValid(item: Json) {
    && item.JObject?
    && HasKey(item.fields, "name") && HasKey(item.fields, "url") && HasKey(item.fields, "materials")
    && Get(item.fields, "materials").value.JArray?
  }

  predicate CategoryValid(entry: (string, Json)) {
    entry.1.JArray? && forall j | 0 <= j < |entry.1.elems| :: ItemValid(entry.1.elems[j])
  }

  /**
   * The schema `load_data` enforces: a dictionary whose metadata, if any, is
   * a dictionary, with a `categories` dictionary of lists of dictionaries
   * that each have a `name`, a `url` and a list of `materials` (a `category`
   * field is not required).
   */
  predicate SchemaValid(data: Json) {
    && data.JObject?
    && MetadataReadable(data.fields)
    && Get(data.fields, "categories").Some?
    && Get(data.fields, "categories").value.JObject?
    && forall k | 0 <= k < |Get(data.fields, "categories").value.fields| ::
         CategoryValid(Get(data.fields, "categories").value.fields[k])
  }

  lemma ItemErrorMeaning(item: Json)
    ensures ItemError(item).None? <==> ItemValid(item)
  {
    if item.JObject? {
      var fs := item.fields;
      FirstErrorMeaning(RequiredFields, FieldError(fs));
      if FirstError(RequiredFields, FieldError(fs)).None? {
        assert FieldError(fs)(RequiredFields[0]).None? && FieldError(fs)(RequiredFields[1]).None? && FieldError(fs)(RequiredFields[2]).None?;
      }
    }
  }

  lemma CategoryErrorMeaning(entry: (string, Json))
    ensures CategoryError(entry).None? <==> CategoryValid(entry)
  {
    if entry.1.JArray? {
      FirstErrorMeaning(entry.1.elems, ItemError);
      forall j | 0 <= j < |entry.1.elems| ensures ItemError(entry.1.elems[j]).None? <==> ItemValid(entry.1.elems[j]) {
        ItemErrorMeaning(entry.1.elems[j]);
      }
    }
  }

  /** The ordered checks raise nothing exactly when the document has the schema. */
  lemma ValidateMeaning(data: Json)
    ensures Validate(data).None? <==> SchemaValid(data)
  {
    if data.JObject? && MetadataReadable(data.fields) && Get(data.fields, "categories").Some? && Get(data.fields, "categories").value.JObject? {
      var cs := Get(data.fields, "categories").value.fields;
      FirstErrorMeaning(cs, CategoryError);
      forall k | 0 <= k < |cs| ensures CategoryError(cs[k]).None? <==> CategoryValid(cs[k]) {
        CategoryErrorMeaning(cs[k]);
      }
    }
  }

  /** `load_data` succeeds exactly on a parsed document with the schema, and returns it unchanged. */
  lemma LoadedDataHasSchema(path: string, file: DataFile)
    ensures Load(path, file).Ok? <==> file.Parsed? && SchemaValid(file.json)
    ensures Load(path, file).Ok? ==> Load(path, file).value == file.json
    ensures file.Missing? ==> Load(path, file) == Err(FileNotFound(path))
  {
    if file.Parsed? {
      ValidateMeaning(file.json);
    }
  }

  /**
   * An item missing a required field is reported by the first missing one
   * in the order name, url, materials.
   */
  lemma MissingFieldNamesFirst(fs: seq<(string, Json)>, i: nat)
    requires i < 3 && !HasKey(fs, RequiredFields[i])
    requires forall j | 0 <= j < i :: HasKey(fs, RequiredFields[j])
    ensures ItemError(JObject(fs)) == Some(MissingField(RequiredFields[i]))
  {
    forall j | 0 <= j < i ensures FieldError(fs)(RequiredFields[j]).None? {
    }
    FirstErrorAt(RequiredFields, i, FieldError(fs));
  }

  lemma ItemToJsonValid(it: Item)
    ensures ItemValid(ItemToJson(it))
  {
    var ms := JArray(MaterialsToJson(it.materials));
    var fs := [("name", JStr(it.name)), ("category", JStr(it.category)), ("url", JStr(it.url)), ("materials", ms)];
    assert ItemToJson(it) == JObject(fs);
    assert fs[..3] == [("name", JStr(it.name)), ("category", JStr(it.category)), ("url", JStr(it.url))];
    assert fs[..3][..2] == [("name", JStr(it.name)), ("category", JStr(it.category))];
    assert fs[..3][..2][..1] == [("name", JStr(it.name))];
    assert Get(fs, "materials") == Some(ms);
    assert Get(fs, "url") == Some(JStr(it.url));
    assert Get(fs, "name") == Get(fs[..3], "name") == Get(fs[..3][..2], "name") == Get(fs[..3][..2][..1], "name");
  }

  /** Whatever the scraper saves, the generator loads unchanged. */
  lemma ScrapedCatalogLoads(path: string, c: Catalog)
    ensures Load(path, Parsed(CatalogToJson(c))) == Ok(CatalogToJson(c))
  {
    var cats := JObject(CategoriesToJson(c.categories));
    var fs := [("categories", cats), ("metadata", MetadataToJson(c.metadata))];
    assert CatalogToJson(c) == JObject(fs);
    assert fs[..1] == [("categories", cats)];
    assert Get(fs, "metadata") == Some(MetadataToJson(c.metadata));
    assert Get(fs, "categories") == Get(fs[..1], "categories") == Some(cats);
    var cs := CategoriesToJson(c.categories);
    forall k | 0 <= k < |cs| ensures CategoryValid(cs[k]) {
      var items := c.categories[k].1;
      forall j | 0 <= j < |ItemsToJson(items)| ensures ItemValid(ItemsToJson(items)[j]) {
        ItemToJsonValid(items[j]);
      }
    }
    ValidateMeaning(CatalogToJson(c));
  }

  /**
   * Metadata is optional: adding a metadata dictionary, with or without a
   * version, does not change what the checks decide; the version read then
   * defaults to `1.0`.
   */
  lemma MetadataOptional(categories: Json, md: seq<(string, Json)>)
    ensures Validate(JObject([("categories", categories)])) == Validate(JObject([("categories", categories), ("metadata", JObject(md))]))
    ensures Version([("categories", categories)]) == JStr("1.0")
    ensures Get(md, "version").None? ==> Version([("categories", categories), ("metadata", JObject(md))]) == JStr("1.0")
  {
    var with := [("categories", categories), ("metadata", JObject(md))];
    assert with[..1] == [("categories", categories)];
    assert Get(with, "metadata") == Some(JObject(md));
    assert Get(with, "categories") == Get(with[..1], "categories") == Some(categories);
    assert Get([("categories", categories)], "metadata") == None;
  }

  // ---------------------------------------------------------------------
  // The material filter list.
  // ---------------------------------------------------------------------

  /** `material['name']` as a string, when the material is a dictionary with a string name. */
  function NameOf(m: Json): Option<string> {
    match m
    case JObject(fs) =>
      (match Get(fs, "name")
       case Some(JStr(s)) => Some(s)
       case _ => None)
    case _ => None
  }

  function ElemsOf(j: Json): seq<Json> {
    if j.JArray? then j.elems else []
  }

  /** `item['materials']`, when the item is a dictionary whose materials are a list. */
  function MaterialsOf(item: Json): seq<Json> {
    if item.JObject? && Get(item.fields, "materials").Some? then ElemsOf(Get(item.fields, "materials").value) else []
  }

  /** The union of the name sets of `xs`, or `None` when some element has none. */
  function Gather<T>(xs: seq<T>, f: T -> Option<set<string>>): Option<set<string>> {
    if xs == [] then Some({})
    else match (Gather(xs[..|xs| - 1], f), f(xs[|xs| - 1]))
      case (Some(a), Some(b)) => Some(a + b)
      case _ => None
  }

  lemma GatherSnoc<T>(xs: seq<T>, j: nat, f: T -> Option<set<string>>)
    requires j < |xs|
    ensures Gather(xs[..j + 1], f) == match (Gather(xs[..j], f), f(xs[j]))
      case (Some(a), Some(b)) => Some(a + b)
      case _ => None
  {
    assert xs[..j + 1][..j] == xs[..j];
  }

  /** The union exists exactly when every element has a name set. */
  lemma {:induction false} GatherDefined<T>(xs: seq<T>, f: T -> Option<set<string>>)
    ensures Gather(xs, f).Some? <==> forall k | 0 <= k < |xs| :: f(xs[k]).Some?
  {
    if xs != [] {
      var init := xs[..|xs| - 1];
      GatherDefined(init, f);
      if Gather(xs, f).Some? {
        forall k | 0 <= k < |init| ensures f(xs[k]).Some? {
          assert init[k] == xs[k];
        }
      }
      if forall k | 0 <= k < |xs| :: f(xs[k]).Some? {
        forall k | 0 <= k < |init| ensures f(init[k]).Some? {
          assert init[k] == xs[k];
        }
      }
    }
  }

  /** The union holds exactly the names of the elements' name sets. */
  lemma {:induction false} GatherMembers<T>(xs: seq<T>, f: T -> Option<set<string>>)
    requires Gather(xs, f).Some?
    ensures forall x :: x in Gather(xs, f).value <==> exists k | 0 <= k < |xs| && f(xs[k]).Some? :: x in f(xs[k]).value
  {
    if xs != [] {
      var init := xs[..|xs| - 1];
      GatherMembers(init, f);
      forall x ensures x in Gather(xs, f).value <==> exists k | 0 <= k < |xs| && f(xs[k]).Some? :: x in f(xs[k]).value {
        if x in Gather(init, f).value {
          var k :| 0 <= k < |init| && f(init[k]).Some? && x in f(init[k]).value;
          assert init[k] == xs[k];
        }
        if exists k | 0 <= k < |xs| && f(xs[k]).Some? :: x in f(xs[k]).value {
          var k :| 0 <= k < |xs| && f(xs[k]).Some? && x in f(xs[k]).value;
          if k < |init| {
            assert init[k] == xs[k];
          }
        }
      }
    }
  }

  function MaterialNames(m: Json): Option<set<string>> {
    match NameOf(m)
    case Some(s) => Some({s})
    case None => None
  }

  /** The names of an item's materials; an item that is not a dictionary with a list of materials has none. */
  function ItemNames(item: Json): Option<set<string>> {
    if item.JObject? && Get(item.fields, "materials").Some? && Get(item.fields, "materials").value.JArray?
    then Gather(Get(item.fields, "materials").value.elems, MaterialNames)
    else None
  }

  function CategoryNames(entry: (string, Json)): Option<set<string>> {
    if entry.1.JArray? then Gather(entry.1.elems, ItemNames) else None
  }

  /**
   * `materials_set`: every material name of every item of every category,
   * or `None` when the loops of `generate_checkboxes_html` raise (no data,
   * a material that is not a dictionary or has no string name).
   */
  function AllNames(data: Option<Json>): Option<set<string>> {
    if data.Some? && data.value.JObject? && Get(data.value.fields, "categories").Some? && Get(data.value.fields, "categories").value.JObject?
    then Gather(Get(data.value.fields, "categories").value.fields, CategoryNames)
    else None
  }

  /** Some material of `item` is named `x`. */
  predicate ItemHasName(item: Json, x: string) {
    exists l :: 0 <= l < |MaterialsOf(item)| && NameOf(MaterialsOf(item)[l]) == Some(x)
  }

  /** Some item of the category has a material named `x`. */
  predicate CategoryHasName(entry: (string, Json), x: string) {
    exists j :: 0 <= j < |ElemsOf(entry.1)| && ItemHasName(ElemsOf(entry.1)[j], x)
  }

  /** Every material of `item` has a string name. */
  predicate ItemNamed(item: Json) {
    forall l | 0 <= l < |MaterialsOf(item)| :: NameOf(MaterialsOf(item)[l]).Some?
  }

  predicate CategoryNamed(entry: (string, Json)) {
    forall j | 0 <= j < |ElemsOf(entry.1)| :: ItemNamed(ElemsOf(entry.1)[j])
  }

  lemma ItemNamesMeaning(item: Json, x: string)
    requires ItemNames(item).Some?
    ensures x in ItemNames(item).value <==> ItemHasName(item, x)
  {
    GatherMembers(MaterialsOf(item), MaterialNames);
  }

  lemma CategoryNamesMeaning(entry: (string, Json), x: string)
    requires CategoryNames(entry).Some?
    ensures x in CategoryNames(entry).value <==> CategoryHasName(entry, x)
  {
    var items := ElemsOf(entry.1);
    GatherDefined(items, ItemNames);
    GatherMembers(items, ItemNames);
    forall j | 0 <= j < |items| ensures x in ItemNames(items[j]).value <==> ItemHasName(items[j], x) {
      ItemNamesMeaning(items[j], x);
    }
  }

  /** The gathered set holds exactly the names of all materials of all items of all categories. */
  lemma AllNamesMeaning(data: Json, x: string)
    requires AllNames(Some(data)).Some?
    ensures x in AllNames(Some(data)).value <==>
      exists k :: 0 <= k < |Get(data.fields, "categories").value.fields| && CategoryHasName(Get(data.fields, "categories").value.fields[k], x)
  {
    var cs := Get(data.fields, "categories").value.fields;
    GatherDefined(cs, CategoryNames);
    GatherMembers(cs, CategoryNames);
    forall k | 0 <= k < |cs| ensures x in CategoryNames(cs[k]).value <==> CategoryHasName(cs[k], x) {
      CategoryNamesMeaning(cs[k], x);
    }
  }

  lemma ItemNamesDefined(item: Json)
    requires ItemValid(item)
    ensures ItemNames(item).Some? <==> ItemNamed(item)
  {
    GatherDefined(MaterialsOf(item), MaterialNames);
  }

  lemma CategoryNamesDefined(entry: (string, Json))
    requires CategoryValid(entry)
    ensures CategoryNames(entry).Some? <==> CategoryNamed(entry)
  {
    var items := ElemsOf(entry.1);
    GatherDefined(items, ItemNames);
    forall j | 0 <= j < |items| ensures ItemNames(items[j]).Some? <==> ItemNamed(items[j]) {
      ItemNamesDefined(items[j]);
    }
  }

  /** Every material of every item of every category has a string name. */
  predicate EveryMaterialNamed(cs: seq<(string, Json)>) {
    forall k | 0 <= k < |cs| :: CategoryNamed(cs[k])
  }

  lemma CategoriesNamesDefined(cs: seq<(string, Json)>)
    requires forall k | 0 <= k < |cs| :: CategoryValid(cs[k])
    ensures Gather(cs, CategoryNames).Some? <==> EveryMaterialNamed(cs)
  {
    GatherDefined(cs, CategoryNames);
    forall k | 0 <= k < |cs| ensures CategoryNames(cs[k]).Some? <==> CategoryNamed(cs[k]) {
      CategoryNamesDefined(cs[k]);
    }
  }

  /** For a loaded document, the names can be gathered exactly when every material has a string name. */
  lemma AllNamesDefined(data: Json)
    requires SchemaValid(data)
    ensures AllNames(Some(data)).Some? <==> EveryMaterialNamed(Get(data.fields, "categories").value.fields)
  {
    var cs := Get(data.fields, "categories").value.fields;
    assert AllNames(Some(data)) == Gather(cs, CategoryNames);
    CategoriesNamesDefined(cs);
  }

  // ---------------------------------------------------------------------
  // Sorting and the checkbox ids.
  // ---------------------------------------------------------------------

  predicate StrictlySorted(s: seq<string>) {
    forall i, j | 0 <= i < j < |s| :: Below(s[i], s[j])
  }

  /** A non-empty set of strings has a least element. */
  lemma {:induction false} LeastOf(s: set<string>) returns (m: string)
    requires s != {}
    ensures m in s && forall y | y in s :: y == m || Below(m, y)
    decreases |s|
  {
    var x :| x in s;
    if s == {x} {
      return x;
    }
    var rest := s - {x};
    assert rest != {} by {
      var z :| z in s && z != x;
      assert z in rest;
    }
    var r := LeastOf(rest);
    assert r != x;
    BelowTotal(x, r);
    if Below(x, r) {
      forall y | y in s ensures y == x || Below(x, y) {
        if y != x {
          assert y in rest;
          if y != r {
            BelowTransitive(x, r, y);
          }
        }
      }
      return x;
    } else {
      forall y | y in s ensures y == r || Below(r, y) {
        if y != x {
          assert y in rest;
        }
      }
      return r;
    }
  }

  /** Two strictly sorted sequences with the same elements are equal: `sorted` has one possible result. */
  lemma {:induction false} StrictlySortedUnique(a: seq<string>, b: seq<string>)
    requires StrictlySorted(a) && StrictlySorted(b)
    requires forall x :: x in a <==> x in b
    ensures a == b
    decreases |a|
  {
    if a != [] {
      assert a[0] in a;
    }
    if b != [] {
      assert b[0] in b;
    }
    if a != [] && b != [] {
      if a[0] != b[0] {
        assert a[0] in a && b[0] in b;
        var i :| 0 <= i < |b| && b[i] == a[0];
        var j :| 0 <= j < |a| && a[j] == b[0];
        BelowTransitive(a[0], a[j], a[0]);
        BelowIrreflexive(a[0]);
      }
      forall x ensures x in a[1..] <==> x in b[1..] {
        if x in a[1..] {
          var i :| 0 <= i < |a[1..]| && a[1..][i] == x;
          BelowIrreflexive(a[0]);
          assert Below(a[0], a[i + 1]) && x != b[0];
          assert a[i + 1] == x && x in a;
          var i' :| 0 <= i' < |b| && b[i'] == x;
          assert b[1..][i' - 1] == x;
        }
        if x in b[1..] {
          var i :| 0 <= i < |b[1..]| && b[1..][i] == x;
          BelowIrreflexive(b[0]);
          assert Below(b[0], b[i + 1]) && x != a[0];
          assert b[i + 1] == x && x in b;
          var i' :| 0 <= i' < |a| && a[i'] == x;
          assert a[1..][i' - 1] == x;
        }
      }
      StrictlySortedUnique(a[1..], b[1..]);
      assert a == [a[0]] + a[1..] && b == [b[0]] + b[1..];
    }
  }

  /** `sorted(materials_set)`: the names in ascending order, each once. */
  method SortNames(names: set<string>) returns (sorted: seq<string>)
    ensures StrictlySorted(sorted)
    ensures forall x :: x in sorted <==> x in names
  {
    var rest := names;
    sorted := [];
    while rest != {}
      invariant StrictlySorted(sorted)
      invariant forall x :: x in names <==> x in sorted || x in rest
      invariant forall i, y | 0 <= i < |sorted| && y in rest :: Below(sorted[i], y)
      decreases |rest|
    {
      ghost var least := LeastOf(rest);
      var m :| m in rest && forall y | y in rest :: y == m || Below(m, y);
      sorted := sorted + [m];
      rest := rest - {m};
    }
  }

  /** `f"material-{name.lower().replace(' ', '-').replace('&', 'and')}"`. */
  function MaterialId(name: string): string {
    "material-" + ReplaceChar(ReplaceChar(Lower(name), ' ', "-"), '&', "and")
  }

  lemma {:induction false} ReplaceCharKeepsAbsent(s: string, c: char, r: string, d: char)
    requires !HasChar(s, d) && !HasChar(r, d)
    ensures !HasChar(ReplaceChar(s, c, r), d)
  {
    if s != [] {
      ReplaceCharKeepsAbsent(s[1..], c, r, d);
      assert s[0] != d;
      var head := if s[0] == c then r else [s[0]];
      var t := ReplaceChar(s[1..], c, r);
      forall i | 0 <= i < |head + t| ensures (head + t)[i] != d {
        if i >= |head| {
          assert (head + t)[i] == t[i - |head|];
        }
      }
    }
  }

  lemma {:induction false} LowerHasNoUpper(s: string)
    ensures forall i | 0 <= i < |Lower(s)| :: !('A' <= Lower(s)[i] <= 'Z')
  {
    LowerPointwise(s);
  }

  /** The id starts with `material-` and holds no space and no `&`. */
  lemma MaterialIdShape(name: string)
    ensures StartsWith(MaterialId(name), "material-")
    ensures !HasChar(MaterialId(name), ' ') && !HasChar(MaterialId(name), '&')
  {
    var dashed := ReplaceChar(Lower(name), ' ', "-");
    assert !HasChar("-", ' ');
    assert !HasChar("and", ' ') && !HasChar("and", '&');
    ReplaceCharKeepsAbsent(dashed, '&', "and", ' ');
    var slug := ReplaceChar(dashed, '&', "and");
    var p := "material-";
    assert !HasChar(p, ' ') && !HasChar(p, '&');
    forall i | 0 <= i < |p + slug| ensures (p + slug)[i] != ' ' && (p + slug)[i] != '&' {
      if i >= |p| {
        assert (p + slug)[i] == slug[i - |p|];
      }
    }
  }

  /** The id is not unique, though the page relies on it: `&` and `and`, or a space and `-`, give the same id. */
  lemma MaterialIdsCollide()
    ensures MaterialId("&") == MaterialId("and") && "&" != "and"
    ensures MaterialId("A B") == MaterialId("a-b") && "A B" != "a-b"
  {
    assert Lower("&") == "&";
    assert ReplaceChar("&", ' ', "-") == "&";
    assert ReplaceChar("&", '&', "and") == "and";
    assert Lower("and") == "and";
    assert ReplaceChar("and", ' ', "-") == "and";
    assert ReplaceChar("and", '&', "and") == "and";
    assert Lower("A B") == "a b";
    assert ReplaceChar("a b", ' ', "-") == "a-b";
    assert ReplaceChar("a-b", '&', "and") == "a-b";
    assert Lower("a-b") == "a-b";
    assert ReplaceChar("a-b", ' ', "-") == "a-b";
  }

  /** One checkbox of the filter list. */
  datatype Checkbox = Checkbox(id: string, name: string)

  /** `cbs` is the filter list for `names`: one checkbox per name, ascending, each with its slug id. */
  predicate CheckboxesFor(cbs: seq<Checkbox>, names: set<string>) {
    && (forall i, j | 0 <= i < j < |cbs| :: Below(cbs[i].name, cbs[j].name))
    && (forall i | 0 <= i < |cbs| :: cbs[i].name in names)
    && (forall x | x in names :: exists i | 0 <= i < |cbs| :: cbs[i].name == x)
    && (forall i | 0 <= i < |cbs| :: cbs[i].id == MaterialId(cbs[i].name))
  }

  function CheckboxName(c: Checkbox): string {
    c.name
  }

  /** The filter list for a set of names is unique. */
  lemma CheckboxesUnique(a: seq<Checkbox>, b: seq<Checkbox>, names: set<string>)
    requires CheckboxesFor(a, names) && CheckboxesFor(b, names)
    ensures a == b
  {
    var na := Map(a, CheckboxName);
    var nb := Map(b, CheckboxName);
    forall x ensures x in na <==> x in nb {
      if x in na {
        var i :| 0 <= i < |na| && na[i] == x;
        assert a[i].name == x;
      }
      if x in nb {
        var i :| 0 <= i < |nb| && nb[i] == x;
        assert b[i].name == x;
      }
    }
    StrictlySortedUnique(na, nb);
    forall i | 0 <= i < |a| ensures a[i] == b[i] {
      assert na[i] == nb[i];
    }
  }

  // ---------------------------------------------------------------------
  // The generator object.
  // ---------------------------------------------------------------------

  class HTMLGenerator {
    var dataFilepath: string
    var data: Option<Json>

    constructor(dataFilepath: string)
      ensures this.dataFilepath == dataFilepath && data == None
    {
      this.dataFilepath := dataFilepath;
      data := None;
    }

    /** The loop over the required fields of one item. */
    static method CheckFields(fs: seq<(string, Json)>) returns (e: Option<LoadError>)
      ensures e == FirstError(RequiredFields, FieldError(fs))
    {
      for i := 0 to |RequiredFields|
        invariant forall k | 0 <= k < i :: FieldError(fs)(RequiredFields[k]).None?
      {
        var field := RequiredFields[i];
        if Get(fs, field).None? {
          FirstErrorAt(RequiredFields, i, FieldError(fs));
          return Some(MissingField(field));
        }
      }
      FirstErrorMeaning(RequiredFields, FieldError(fs));
      return None;
    }

    /** The loop over the items of one category. */
    static method CheckItems(items: seq<Json>) returns (e: Option<LoadError>)
      ensures e == FirstError(items, ItemError)
    {
      for i := 0 to |items|
        invariant forall k | 0 <= k < i :: ItemError(items[k]).None?
      {
        var item := items[i];
        if !item.JObject? {
          FirstErrorAt(items, i, ItemError);
          return Some(ItemNotDict);
        }
        var missing := CheckFields(item.fields);
        if missing.Some? {
          FirstErrorAt(items, i, ItemError);
          return missing;
        }
        FirstErrorMeaning(RequiredFields, FieldError(item.fields));
        assert HasKey(item.fields, RequiredFields[2]);
        if !Get(item.fields, "materials").value.JArray? {
          FirstErrorAt(items, i, ItemError);
          return Some(MaterialsNotList);
        }
      }
      FirstErrorMeaning(items, ItemError);
      return None;
    }

    /**
     * `load_data`: the document is loaded, checked in order, and kept in
     * `data` only when every check passes.
     */
    method LoadData(file: DataFile) returns (r: Result<Json, LoadError>)
      modifies this
      ensures r == Load(dataFilepath, file)
      ensures data == if r.Ok? then Some(r.value) else old(data)
      ensures dataFilepath == old(dataFilepath)
    {
      match file
      case Missing =>
        return Err(FileNotFound(dataFilepath));
      case Malformed(detail) =>
        return Err(InvalidJsonFile(detail));
      case Parsed(json) =>
        if !json.JObject? {
          return Err(AttributeError(TypeName(json)));
        }
        var metadata := Get(json.fields, "metadata");
        if metadata.Some? && !metadata.value.JObject? {
          return Err(AttributeError(TypeName(metadata.value)));
        }
        var version := Version(json.fields);
        var categories := Get(json.fields, "categories");
        if categories.None? {
          return Err(MissingCategories);
        }
        if !categories.value.JObject? {
          return Err(CategoriesNotDict);
        }
        var cs := categories.value.fields;
        for i := 0 to |cs|
          invariant forall k | 0 <= k < i :: CategoryError(cs[k]).None?
          invariant data == old(data) && dataFilepath == old(dataFilepath)
        {
          var (name, items) := cs[i];
          if !items.JArray? {
            FirstErrorAt(cs, i, CategoryError);
            return Err(CategoryNotList(name));
          }
          var e := CheckItems(items.elems);
          if e.Some? {
            FirstErrorAt(cs, i, CategoryError);
            return Err(e.value);
          }
        }
        FirstErrorMeaning(cs, CategoryError);
        data := Some(json);
        return Ok(json);
    }

    /** The innermost loop: the names of one item's materials. */
    static method CollectMaterialNames(ms: seq<Json>) returns (names: Option<set<string>>)
      ensures names == Gather(ms, MaterialNames)
    {
      names := Some({});
      for l := 0 to |ms|
        invariant names == Gather(ms[..l], MaterialNames)
      {
        GatherSnoc(ms, l, MaterialNames);
        var name := NameOf(ms[l]);
        if names.Some? && name.Some? {
          names := Some(names.value + {name.value});
        } else {
          names := None;
        }
      }
      PrefixAll(ms);
    }

    /** The middle loop: the names of one category's items. */
    static method CollectItemNames(items: seq<Json>) returns (names: Option<set<string>>)
      ensures names == Gather(items, ItemNames)
    {
      names := Some({});
      for j := 0 to |items|
        invariant names == Gather(items[..j], ItemNames)
      {
        GatherSnoc(items, j, ItemNames);
        var item := items[j];
        var found: Option<set<string>> := None;
        if item.JObject? && Get(item.fields, "materials").Some? && Get(item.fields, "materials").value.JArray? {
          found := CollectMaterialNames(Get(item.fields, "materials").value.elems);
        }
        if names.Some? && found.Some? {
          names := Some(names.value + found.value);
        } else {
          names := None;
        }
      }
      PrefixAll(items);
    }

    /** The outer loop: the names of every category's items. */
    static method CollectCategoryNames(cs: seq<(string, Json)>) returns (names: Option<set<string>>)
      ensures names == Gather(cs, CategoryNames)
    {
      names := Some({});
      for k := 0 to |cs|
        invariant names == Gather(cs[..k], CategoryNames)
      {
        GatherSnoc(cs, k, CategoryNames);
        var found: Option<set<string>> := None;
        if cs[k].1.JArray? {
          found := CollectItemNames(cs[k].1.elems);
        }
        if names.Some? && found.Some? {
          names := Some(names.value + found.value);
        } else {
          names := None;
        }
      }
      PrefixAll(cs);
    }

    /**
     * `generate_checkboxes_html` without the markup: the filter list for
     * every material name in `data`, or an error when there is no data or a
     * material has no string name.
     */
    method GenerateCheckboxes() returns (r: Result<seq<Checkbox>, string>)
      ensures r.Err? <==> AllNames(data).None?
      ensures r.Ok? ==> CheckboxesFor(r.value, AllNames(data).value)
    {
      var d := data;
      if d.None? || !d.value.JObject? {
        return Err("data is not loaded");
      }
      var categories := Get(d.value.fields, "categories");
      if categories.None? || !categories.value.JObject? {
        return Err("data has no categories dictionary");
      }
      var names := CollectCategoryNames(categories.value.fields);
      if names.None? {
        return Err("a material has no string name");
      }
      var sorted := SortNames(names.value);
      var cbs: seq<Checkbox> := [];
      for i := 0 to |sorted|
        invariant |cbs| == i
        invariant forall k | 0 <= k < i :: cbs[k] == Checkbox(MaterialId(sorted[k]), sorted[k])
      {
        cbs := cbs + [Checkbox(MaterialId(sorted[i]), sorted[i])];
      }
      forall x ensures x in names.value <==> exists i | 0 <= i < |cbs| :: cbs[i].name == x {
        if x in names.value {
          var i :| 0 <= i < |sorted| && sorted[i] == x;
          assert cbs[i].name == x;
        }
      }
      return Ok(cbs);
    }
  }
}
