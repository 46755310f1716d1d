/**
 * The parsed-document view the scraper works on: a tree of elements and
 * text leaves, with the handful of BeautifulSoup queries the extraction
 * code calls (`get_text`, `find_all`, `find`, `find_next`,
 * `find_next_sibling`).  Parsing raw HTML into this tree is not modelled.
 */
module Html {
  import opened Wrappers
  import opened Text

  datatype Node = Leaf(content: string) | Element(tag: string, children: seq<Node>)

  /** The text leaves of a forest, in document order. */
  function Strings(ns: seq<Node>): (r: seq<string>)
    ensures ns == [] ==> r == []
    decreases ns
  {
    if ns == [] then []
    else
      var first := match ns[0]
        case Leaf(c) => [c]
        case Element(_, ch) => Strings(ch);
      first + Strings(ns[1..])
  }

  /** The non-empty stripped text leaves, as `_all_strings(strip=True)` yields them. */
  function StrippedStrings(ns: seq<Node>): seq<string> {
    KeepStripped(Strings(ns))
  }

  /** `tag.get_text(sep, strip=True)` over a tag's children. */
  function GetText(n: Node, sep: string): string {
    match n
    case Leaf(c) => Strip(c)
    case Element(_, ch) => Join(sep, StrippedStrings(ch))
  }

  /** The element nodes of a forest in document (pre-)order, descendants included. */
  function Elements(ns: seq<Node>): (r: seq<Node>)
    decreases ns
  {
    if ns == [] then []
    else
      var first := match ns[0]
        case Leaf(_) => []
        case Element(_, ch) => [ns[0]] + Elements(ch);
      first + Elements(ns[1..])
  }

  function WithTag(ns: seq<Node>, tags: set<string>): (r: seq<Node>)
    ensures |r| <= |ns|
  {
    if ns == [] then []
    else (if ns[0].Element? && ns[0].tag in tags then [ns[0]] else []) + WithTag(ns[1..], tags)
  }

  /** Filtering by tag keeps exactly the elements with a listed tag. */
  lemma {:induction false} WithTagMembers(ns: seq<Node>, tags: set<string>)
    ensures forall x :: x in WithTag(ns, tags) <==> x in ns && x.Element? && x.tag in tags
  {
    if ns != [] {
      WithTagMembers(ns[1..], tags);
      assert ns == [ns[0]] + ns[1..];
    }
  }

  function Descendants(n: Node): seq<Node> {
    match n
    case Leaf(_) => []
    case Element(_, ch) => Elements(ch)
  }

  /** `tag.find_all(tags)`: the descendant elements whose tag is listed, in document order. */
  function FindAll(n: Node, tags: set<string>): seq<Node> {
    WithTag(Descendants(n), tags)
  }

  lemma FindAllMembers(n: Node, tags: set<string>)
    ensures forall x :: x in FindAll(n, tags) <==> x in Descendants(n) && x.Element? && x.tag in tags
  {
    WithTagMembers(Descendants(n), tags);
  }

  /** `tag.find(tags)`: the first listed descendant, if any. */
  function Find(n: Node, tags: set<string>): (r: Option<Node>)
    ensures r.None? <==> FindAll(n, tags) == []
    ensures r.Some? ==> r.value == FindAll(n, tags)[0]
  {
    var all := FindAll(n, tags);
    if all == [] then None else Some(all[0])
  }

  /** `find` fails exactly when no descendant has a listed tag; otherwise it returns such a descendant. */
  lemma FindMeaning(n: Node, tags: set<string>)
    ensures Find(n, tags).None? <==> forall x | x in Descendants(n) && x.Element? :: x.tag !in tags
    ensures Find(n, tags).Some? ==> Find(n, tags).value in Descendants(n) && Find(n, tags).value.Element? && Find(n, tags).value.tag in tags
  {
    FindAllMembers(n, tags);
  }

  /** The element siblings of a forest: strings are skipped, children are not entered. */
  function ElementSiblings(ns: seq<Node>): seq<Node> {
    if ns == [] then []
    else (if ns[0].Element? then [ns[0]] else []) + ElementSiblings(ns[1..])
  }

  /** An element together with its following element siblings (what repeated `find_next_sibling()` visits). */
  datatype Located = Located(node: Node, after: seq<Node>)

  /** Every element of the forest, in document order, with its following element siblings. */
  function LocatedElements(ns: seq<Node>): seq<Located>
    decreases ns
  {
    if ns == [] then []
    else
      var first := match ns[0]
        case Leaf(_) => []
        case Element(_, ch) => [Located(ns[0], ElementSiblings(ns[1..]))] + LocatedElements(ch);
      first + LocatedElements(ns[1..])
  }

  function Nodes(ls: seq<Located>): (r: seq<Node>)
    ensures |r| == |ls| && forall k | 0 <= k < |ls| :: r[k] == ls[k].node
  {
    if ls == [] then [] else [ls[0].node] + Nodes(ls[1..])
  }

  lemma NodesAppend(a: seq<Located>, b: seq<Located>)
    ensures Nodes(a + b) == Nodes(a) + Nodes(b)
  {
  }

  lemma NodesSingle(l: Located)
    ensures Nodes([l]) == [l.node]
  {
    assert [l][1..] == [];
  }

  /** Locating siblings visits exactly the elements `find_all` and `find_next` visit, in the same order. */
  lemma {:induction false} LocatedAreElements(ns: seq<Node>)
    ensures Nodes(LocatedElements(ns)) == Elements(ns)
    decreases ns
  {
    if ns != [] {
      LocatedAreElements(ns[1..]);
      match ns[0]
      case Leaf(_) =>
        assert LocatedElements(ns) == LocatedElements(ns[1..]);
      case Element(t, ch) =>
        LocatedAreElements(ch);
        var first := [Located(ns[0], ElementSiblings(ns[1..]))] + LocatedElements(ch);
        NodesAppend([Located(ns[0], ElementSiblings(ns[1..]))], LocatedElements(ch));
        NodesAppend(first, LocatedElements(ns[1..]));
        NodesSingle(Located(ns[0], ElementSiblings(ns[1..])));
    }
  }
}
