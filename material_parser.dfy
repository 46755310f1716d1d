/**
 * The material text parser: `_parse_material_text` tries five regular
 * expressions with `re.search(pattern, text, re.IGNORECASE)` and keeps the
 * first that matches; `_parse_quantity` reads the first run of digits.
 *
 * Each pattern is matched by hand, exactly as Python's backtracking engine
 * would: the leftmost start position wins; the name group `(.+?)` is lazy
 * (the shortest name, at least one character, after which the rest of the
 * pattern matches); `.` does not match a newline; `\d+` and `\s*` are
 * greedy; under IGNORECASE the `x` of the two multiplication shapes also
 * matches `X`.
 */
module MaterialParser {
  import opened Wrappers
  import opened Text
  import opened Seqs

  /** A successful parse: the stripped name group and the value of the quantity group. */
  datatype Parsed = Parsed(name: string, quantity: nat)

  /** The five shapes: `NAME: Q`, `NAME (Q)`, `NAME x Q`, `Q x NAME`, `NAME - Q`. */
  datatype Shape = Colon | Paren | TimesAfter | TimesBefore | Dash

  /** The order in which the shapes are tried. */
  const Priority: seq<Shape> := [Colon, Paren, TimesAfter, TimesBefore, Dash]

  /** Where a pattern matched: the name group is `t[nameStart..nameEnd]`, the quantity group `t[qtyStart..qtyEnd]`. */
  datatype Span = Span(nameStart: nat, nameEnd: nat, qtyStart: nat, qtyEnd: nat)

  /** The quantity group of a span is a maximal, non-empty run of digits inside `t`. */
  predicate QuantityGroup(t: string, a: nat, b: nat) {
    a < b <= |t| && AllDigits(t[a..b]) && (b == |t| || !IsDigit(t[b]))
  }

  /** The name group lies on one line (`.` never matches a newline); the quantity group is a digit run. */
  predicate WellFormed(t: string, m: Span) {
    && m.nameStart <= m.nameEnd <= |t|
    && (forall k | m.nameStart <= k < m.nameEnd :: t[k] != '\n')
    && QuantityGroup(t, m.qtyStart, m.qtyEnd)
  }

  /** Greedy `\s*` from `i`. */
  function SkipSpaces(t: string, i: nat): (j: nat)
    requires i <= |t|
    ensures i <= j <= |t|
    ensures forall k | i <= k < j :: IsSpace(t[k])
    ensures j == |t| || !IsSpace(t[j])
    decreases |t| - i
  {
    if i < |t| && IsSpace(t[i]) then SkipSpaces(t, i + 1) else i
  }

  /** Greedy `\d*` from `i`. */
  function SkipDigits(t: string, i: nat): (j: nat)
    requires i <= |t|
    ensures i <= j <= |t|
    ensures forall k | i <= k < j :: IsDigit(t[k])
    ensures j == |t| || !IsDigit(t[j])
    decreases |t| - i
  {
    if i < |t| && IsDigit(t[i]) then SkipDigits(t, i + 1) else i
  }

  /** The letter `x` under IGNORECASE. */
  predicate IsTimes(c: char) {
    c == 'x' || c == 'X'
  }

  /** `(\d+)` at `a`, greedy. */
  function DigitsFrom(t: string, a: nat): (q: Option<(nat, nat)>)
    requires a <= |t|
    ensures q.Some? <==> a < |t| && IsDigit(t[a])
    ensures q.Some? ==> q.value.0 == a && QuantityGroup(t, a, q.value.1)
  {
    var b := SkipDigits(t, a);
    if b > a then Some((a, b)) else None
  }

  /**
   * The rest of a name-first pattern, after a name group ending at `e`:
   * `:\s*(\d+)`, `\s*\((\d+)\)`, `\s*x\s*(\d+)` or `\s*-\s*(\d+)`. Because a
   * shorter `\s*` leaves a space where the next literal must stand, only the
   * greedy choice can succeed; the result is the quantity group.
   */
  function TailAt(shape: Shape, t: string, e: nat): (q: Option<(nat, nat)>)
    requires shape != TimesBefore && e <= |t|
    ensures q.Some? ==> e < q.value.0 && QuantityGroup(t, q.value.0, q.value.1)
  {
    match shape
    case Colon =>
      if e < |t| && t[e] == ':' then DigitsFrom(t, SkipSpaces(t, e + 1)) else None
    case Paren =>
      var w := SkipSpaces(t, e);
      if w < |t| && t[w] == '(' then
        var b := SkipDigits(t, w + 1);
        if b > w + 1 && b < |t| && t[b] == ')' then Some((w + 1, b)) else None
      else None
    case TimesAfter =>
      var w := SkipSpaces(t, e);
      if w < |t| && IsTimes(t[w]) then DigitsFrom(t, SkipSpaces(t, w + 1)) else None
    case Dash =>
      var w := SkipSpaces(t, e);
      if w < |t| && t[w] == '-' then DigitsFrom(t, SkipSpaces(t, w + 1)) else None
  }

  /** No newline in `t[s..e]`: the name group `.+?` may span it. */
  predicate OneLine(t: string, s: nat, e: nat)
    requires s <= e <= |t|
  {
    forall k | s <= k < e :: t[k] != '\n'
  }

  /** A name-first pattern matches with its name group exactly `t[s..e]`. */
  predicate NameFirstAt(shape: Shape, t: string, s: nat, e: nat) {
    shape != TimesBefore && s < e <= |t| && OneLine(t, s, e) && TailAt(shape, t, e).Some?
  }

  /** The tail of a name-first shape after each candidate end of the name; none past the end of `t`. */
  function Tails(shape: Shape, t: string): nat -> Option<(nat, nat)>
    requires shape != TimesBefore
  {
    (e: nat) => if e <= |t| then TailAt(shape, t, e) else None
  }

  /**
   * The lazy name group `(.+?)` started at `s`, given the tail `tail(e)` that
   * follows a name ending at `e`: the ends are tried in increasing order from
   * the given one, and a newline ends the search.
   */
  function LazyFrom(tail: nat -> Option<(nat, nat)>, t: string, s: nat, e: nat): Option<Span>
    requires s < e <= |t|
    decreases |t| - e
  {
    if t[e - 1] == '\n' then None
    else match tail(e)
      case Some(q) => Some(Span(s, e, q.0, q.1))
      case None => if e < |t| then LazyFrom(tail, t, s, e + 1) else None
  }

  /** The lazy group `(.+?)` of a name-first shape started at `s`. */
  function LazyName(shape: Shape, t: string, s: nat): (m: Option<Span>)
    requires shape != TimesBefore && s < |t|
    ensures m.Some? ==> m.value.nameStart == s < m.value.nameEnd && WellFormed(t, m.value)
    ensures m.Some? ==> TailAt(shape, t, m.value.nameEnd) == Some((m.value.qtyStart, m.value.qtyEnd))
  {
    LazyFromFound(Tails(shape, t), t, s, s + 1);
    LazyFrom(Tails(shape, t), t, s, s + 1)
  }

  /** `\s*(.+)` after the `x` of `Q x NAME`: the greedy `\s*` gives back spaces until `.` can match; the largest such start in [lo, hi]. */
  function NameStartAfterTimes(t: string, lo: nat, hi: nat): (p: Option<nat>)
    requires lo <= hi <= |t|
    ensures p.Some? ==> lo <= p.value <= hi && p.value < |t| && t[p.value] != '\n'
    ensures p.Some? ==> forall k | p.value < k <= hi :: k == |t| || t[k] == '\n'
    ensures p.None? ==> forall k | lo <= k <= hi :: k == |t| || t[k] == '\n'
    decreases hi
  {
    if hi < |t| && t[hi] != '\n' then Some(hi)
    else if hi == lo then None
    else NameStartAfterTimes(t, lo, hi - 1)
  }

  /** Greedy `.+` from `p`: up to the end of the line. */
  function LineEnd(t: string, p: nat): (q: nat)
    requires p <= |t|
    ensures p <= q <= |t| && OneLine(t, p, q) && (q == |t| || t[q] == '\n')
    decreases |t| - p
  {
    if p < |t| && t[p] != '\n' then LineEnd(t, p + 1) else p
  }

  /**
   * `(\d+)\s*x\s*(.+)` at `s`. A shorter `\d+` leaves a digit where `x` must
   * stand, so only the greedy run can succeed.
   */
  function TimesBeforeAt(t: string, s: nat): (m: Option<Span>)
    requires s <= |t|
    ensures m.Some? ==> m.value.qtyStart == s && WellFormed(t, m.value)
    ensures m.Some? ==> m.value.qtyEnd < m.value.nameStart < m.value.nameEnd
    ensures m.Some? ==> var w := SkipSpaces(t, m.value.qtyEnd); w < |t| && IsTimes(t[w])
  {
    var d := SkipDigits(t, s);
    if d == s then None
    else
      var w := SkipSpaces(t, d);
      if w < |t| && IsTimes(t[w]) then
        match NameStartAfterTimes(t, w + 1, SkipSpaces(t, w + 1))
        case Some(p) => Some(Span(p, LineEnd(t, p), s, d))
        case None => None
      else None
  }

  /** One attempt of `re.search` at start position `s`. */
  function MatchAt(shape: Shape, t: string, s: nat): (m: Option<Span>)
    requires s < |t|
    ensures m.Some? ==> WellFormed(t, m.value)
    ensures m.Some? && shape != TimesBefore ==> m.value.nameStart == s && m.value.nameEnd <= m.value.qtyStart
    ensures m.Some? && shape == TimesBefore ==> m.value.qtyStart == s && m.value.qtyEnd <= m.value.nameStart
  {
    if shape == TimesBefore then TimesBeforeAt(t, s) else LazyName(shape, t, s)
  }

  /** The attempt at each start position of `t`; there is none past the end. */
  function Attempts(shape: Shape, t: string): nat -> Option<Span> {
    (j: nat) => if j < |t| then MatchAt(shape, t, j) else None
  }

  /** The scan of `re.search`: the attempts at start positions `s`, `s + 1`, ..., `n - 1`, until one succeeds. */
  function FirstSuccess(attempt: nat -> Option<Span>, s: nat, n: nat): Option<Span>
    decreases n - s
  {
    if s >= n then None
    else match attempt(s)
      case Some(m) => Some(m)
      case None => FirstSuccess(attempt, s + 1, n)
  }

  /** `re.search` from start position `s` on. */
  function SearchFrom(shape: Shape, t: string, s: nat): (m: Option<Span>)
    requires s <= |t|
    ensures m.Some? ==> WellFormed(t, m.value)
  {
    FirstSuccessIsAttempt(Attempts(shape, t), s, |t|);
    FirstSuccess(Attempts(shape, t), s, |t|)
  }

  function Search(shape: Shape, t: string): (m: Option<Span>)
    ensures m.Some? ==> WellFormed(t, m.value)
  {
    SearchFrom(shape, t, 0)
  }

  /** The groups of a match as the source returns them: the name group stripped, the quantity group as a number. */
  function Groups(t: string, m: Span): Parsed
    requires WellFormed(t, m)
  {
    Parsed(Strip(t[m.nameStart..m.nameEnd]), DigitsValue(t[m.qtyStart..m.qtyEnd]))
  }

  /** What one shape yields on `t`: the groups of its match, if it matches. */
  function ShapeResult(t: string): Shape -> Option<Parsed> {
    shape => match Search(shape, t)
      case Some(m) => Some(Groups(t, m))
      case None => None
  }

  /** Trying shapes in order: the first one that yields a result decides. */
  function TryShapes(shapes: seq<Shape>, result: Shape -> Option<Parsed>): Option<Parsed> {
    if shapes == [] then None
    else match result(shapes[0])
      case Some(p) => Some(p)
      case None => TryShapes(shapes[1..], result)
  }

  /** `_parse_material_text`: `None` stands for the source's `(None, None)`. */
  function ParseMaterialText(t: string): Option<Parsed> {
    TryShapes(Priority, ShapeResult(t))
  }

  /**
   * The loop of `_parse_material_text`: the patterns are tried one after the
   * other, and the first `re.search` that matches returns its groups.
   */
  method ParseMaterialLoop(t: string) returns (r: Option<Parsed>)
    ensures r == ParseMaterialText(t)
  {
    var i := 0;
    while i < |Priority|
      invariant 0 <= i <= |Priority|
      invariant ParseMaterialText(t) == TryShapes(Priority[i..], ShapeResult(t))
    {
      assert Priority[i..][1..] == Priority[i + 1..];
      var m := Search(Priority[i], t);
      if m.Some? {
        return Some(Groups(t, m.value));
      }
      i := i + 1;
    }
    return None;
  }

  /** Index of the first digit at or after `i` (or `|t|`). */
  function FirstDigit(t: string, i: nat): (k: nat)
    requires i <= |t|
    ensures i <= k <= |t| && (k == |t| || IsDigit(t[k]))
    ensures forall j | i <= j < k :: !IsDigit(t[j])
    decreases |t| - i
  {
    if i == |t| || IsDigit(t[i]) then i else FirstDigit(t, i + 1)
  }

  /** `_parse_quantity`: `re.search(r'(\d+)', text)`; `None` when the text holds no digit. */
  function ParseQuantity(t: string): (r: Option<nat>)
    ensures r.None? <==> forall j | 0 <= j < |t| :: !IsDigit(t[j])
  {
    var i := FirstDigit(t, 0);
    if i == |t| then None else Some(DigitsValue(t[i..SkipDigits(t, i)]))
  }

  // ---------------------------------------------------------------------
  // What the matchers mean.

  /** What the lazy group reports: a name from `s` to a tried end, one line long, and the tail after it. */
  lemma {:induction false} LazyFromFound(tail: nat -> Option<(nat, nat)>, t: string, s: nat, e: nat)
    requires s < e <= |t|
    ensures var m := LazyFrom(tail, t, s, e);
      m.Some? ==>
        && m.value.nameStart == s && e <= m.value.nameEnd <= |t|
        && (forall k | e - 1 <= k < m.value.nameEnd :: t[k] != '\n')
        && tail(m.value.nameEnd) == Some((m.value.qtyStart, m.value.qtyEnd))
    decreases |t| - e
  {
    if t[e - 1] != '\n' && tail(e).None? && e < |t| {
      LazyFromFound(tail, t, s, e + 1);
    }
  }

  /** The lazy group finds a name whenever some end, with no newline before it, has a tail. */
  lemma {:induction false} LazyFromComplete(tail: nat -> Option<(nat, nat)>, t: string, s: nat, e: nat, e': nat)
    requires s < e <= e' <= |t| && tail(e').Some?
    requires forall k | e - 1 <= k < e' :: t[k] != '\n'
    ensures LazyFrom(tail, t, s, e).Some?
    decreases |t| - e
  {
    if tail(e).None? {
      LazyFromComplete(tail, t, s, e + 1, e');
    }
  }

  /** The lazy group reports the first end, from the given one on, that has a tail. */
  lemma {:induction false} LazyFromShortest(tail: nat -> Option<(nat, nat)>, t: string, s: nat, e: nat)
    requires s < e <= |t| && LazyFrom(tail, t, s, e).Some?
    ensures forall e': nat | e <= e' && tail(e').Some? :: LazyFrom(tail, t, s, e).value.nameEnd <= e'
    decreases |t| - e
  {
    if tail(e).None? {
      LazyFromShortest(tail, t, s, e + 1);
    }
  }

  /** Every admissible name at `s` is found by the lazy group. */
  lemma LazyNameComplete(shape: Shape, t: string, s: nat, e: nat)
    requires NameFirstAt(shape, t, s, e)
    ensures LazyName(shape, t, s).Some?
  {
    assert Tails(shape, t)(e) == TailAt(shape, t, e);
    LazyFromComplete(Tails(shape, t), t, s, s + 1, e);
  }

  /** The lazy group returns an admissible name no longer than any other admissible name at `s`. */
  lemma LazyNameShortest(shape: Shape, t: string, s: nat)
    requires shape != TimesBefore && s < |t| && LazyName(shape, t, s).Some?
    ensures NameFirstAt(shape, t, s, LazyName(shape, t, s).value.nameEnd)
    ensures forall e: nat :: NameFirstAt(shape, t, s, e) ==> LazyName(shape, t, s).value.nameEnd <= e
  {
    LazyFromShortest(Tails(shape, t), t, s, s + 1);
    forall e: nat | NameFirstAt(shape, t, s, e) ensures LazyName(shape, t, s).value.nameEnd <= e {
      assert Tails(shape, t)(e) == TailAt(shape, t, e);
    }
  }

  /** A success of the scan is the success of one of the attempts it made. */
  lemma {:induction false} FirstSuccessIsAttempt(attempt: nat -> Option<Span>, s: nat, n: nat)
    ensures FirstSuccess(attempt, s, n).Some? ==>
              exists k | s <= k < n :: attempt(k) == FirstSuccess(attempt, s, n)
    decreases n - s
  {
    if s < n && attempt(s).None? {
      FirstSuccessIsAttempt(attempt, s + 1, n);
    }
  }

  /** The scan returns the attempt at the first position where one succeeds. */
  lemma {:induction false} FirstSuccessFinds(attempt: nat -> Option<Span>, s: nat, n: nat, k: nat)
    requires s <= k < n && attempt(k).Some?
    requires forall j | s <= j < k :: attempt(j).None?
    ensures FirstSuccess(attempt, s, n) == attempt(k)
    decreases k - s
  {
    if s < k {
      FirstSuccessFinds(attempt, s + 1, n, k);
    }
  }

  /** The scan fails only when every attempt fails. */
  lemma {:induction false} FirstSuccessFails(attempt: nat -> Option<Span>, s: nat, n: nat, k: nat)
    requires s <= k < n && FirstSuccess(attempt, s, n).None?
    ensures attempt(k).None?
    decreases k - s
  {
    if s < k {
      FirstSuccessFails(attempt, s + 1, n, k);
    }
  }

  /** When the scan succeeds, it reports the attempt at some position `k` and every earlier attempt failed. */
  lemma {:induction false} FirstSuccessWitness(attempt: nat -> Option<Span>, s: nat, n: nat) returns (k: nat)
    requires FirstSuccess(attempt, s, n).Some?
    ensures s <= k < n && FirstSuccess(attempt, s, n) == attempt(k)
    ensures forall j | s <= j < k :: attempt(j).None?
    decreases n - s
  {
    if attempt(s).Some? {
      k := s;
    } else {
      k := FirstSuccessWitness(attempt, s + 1, n);
    }
  }

  /** `re.search` fails only when no start position from `s` on succeeds. */
  lemma SearchFromFails(shape: Shape, t: string, s: nat, k: nat)
    requires s <= k < |t| && SearchFrom(shape, t, s).None?
    ensures MatchAt(shape, t, k).None?
  {
    FirstSuccessFails(Attempts(shape, t), s, |t|, k);
    assert Attempts(shape, t)(k) == MatchAt(shape, t, k);
  }

  /** When `re.search` succeeds, it reports the attempt at some start `k` and every earlier attempt failed. */
  lemma SearchFromWitness(shape: Shape, t: string, s: nat) returns (k: nat)
    requires s <= |t| && SearchFrom(shape, t, s).Some?
    ensures s <= k < |t| && SearchFrom(shape, t, s) == MatchAt(shape, t, k)
    ensures forall j: nat | s <= j < k :: MatchAt(shape, t, j).None?
  {
    k := FirstSuccessWitness(Attempts(shape, t), s, |t|);
    forall j: nat | s <= j < k ensures MatchAt(shape, t, j).None? {
      assert Attempts(shape, t)(j) == MatchAt(shape, t, j);
    }
  }

  /**
   * `re.search` for a name-first shape: it succeeds exactly when some name
   * `t[s..e]` admits the pattern, and then it reports the leftmost start and,
   * at that start, the shortest name.
   */
  lemma SearchIsLeftmostLazy(shape: Shape, t: string)
    requires shape != TimesBefore
    ensures Search(shape, t).Some? <==> exists s: nat, e: nat :: NameFirstAt(shape, t, s, e)
    ensures Search(shape, t).Some? ==>
              var m := Search(shape, t).value;
              && NameFirstAt(shape, t, m.nameStart, m.nameEnd)
              && TailAt(shape, t, m.nameEnd) == Some((m.qtyStart, m.qtyEnd))
              && forall s: nat, e: nat :: NameFirstAt(shape, t, s, e) ==>
                   m.nameStart < s || (m.nameStart == s && m.nameEnd <= e)
  {
    if Search(shape, t).Some? {
      SearchFound(shape, t);
    } else {
      forall s: nat, e: nat | NameFirstAt(shape, t, s, e) ensures false {
        SearchFromFails(shape, t, 0, s);
        LazyNameComplete(shape, t, s, e);
      }
    }
  }

  lemma SearchFound(shape: Shape, t: string)
    requires shape != TimesBefore && Search(shape, t).Some?
    ensures var m := Search(shape, t).value;
              && NameFirstAt(shape, t, m.nameStart, m.nameEnd)
              && TailAt(shape, t, m.nameEnd) == Some((m.qtyStart, m.qtyEnd))
              && forall s: nat, e: nat :: NameFirstAt(shape, t, s, e) ==>
                   m.nameStart < s || (m.nameStart == s && m.nameEnd <= e)
  {
    var k := SearchFromWitness(shape, t, 0);
    assert Search(shape, t) == LazyName(shape, t, k);
    LazyNameShortest(shape, t, k);
    NoEarlierName(shape, t, k);
  }

  /** No admissible name starts before the first start position whose attempt succeeds. */
  lemma NoEarlierName(shape: Shape, t: string, k: nat)
    requires shape != TimesBefore && k <= |t|
    requires forall j: nat :: j < k ==> MatchAt(shape, t, j).None?
    ensures forall s: nat, e: nat :: NameFirstAt(shape, t, s, e) ==> k <= s
  {
    forall s: nat, e: nat | NameFirstAt(shape, t, s, e) && s < k ensures false {
      assert MatchAt(shape, t, s) == LazyName(shape, t, s);
      LazyNameComplete(shape, t, s, e);
    }
  }

  /** Trying a list of shapes in order: the first shape that yields a result decides it. */
  lemma {:induction false} TryShapesFirst(shapes: seq<Shape>, result: Shape -> Option<Parsed>)
    ensures TryShapes(shapes, result).None? <==> forall k | 0 <= k < |shapes| :: result(shapes[k]).None?
    ensures TryShapes(shapes, result).Some? ==>
              exists k | 0 <= k < |shapes| ::
                && TryShapes(shapes, result) == result(shapes[k])
                && forall j | 0 <= j < k :: result(shapes[j]).None?
  {
    if shapes != [] && result(shapes[0]).None? {
      TryShapesFirst(shapes[1..], result);
      if TryShapes(shapes, result).Some? {
        var k :| 0 <= k < |shapes[1..]| && TryShapes(shapes, result) == result(shapes[1..][k])
                 && forall j | 0 <= j < k :: result(shapes[1..][j]).None?;
        assert shapes[1..][k] == shapes[k + 1];
        forall j | 1 <= j < k + 1 ensures result(shapes[j]).None? {
          assert shapes[j] == shapes[1..][j - 1];
        }
      } else {
        forall k | 1 <= k < |shapes| ensures result(shapes[k]).None? {
          assert shapes[k] == shapes[1..][k - 1];
        }
      }
    }
  }

  /** `_parse_material_text` tries the shapes in priority order and the first one that matches decides the result. */
  lemma FirstShapeWins(t: string)
    ensures ParseMaterialText(t).None? <==> forall k | 0 <= k < |Priority| :: Search(Priority[k], t).None?
    ensures ParseMaterialText(t).Some? ==>
              exists k | 0 <= k < |Priority| ::
                && Search(Priority[k], t).Some?
                && ParseMaterialText(t).value == Groups(t, Search(Priority[k], t).value)
                && forall j | 0 <= j < k :: Search(Priority[j], t).None?
  {
    var result := ShapeResult(t);
    TryShapesFirst(Priority, result);
    forall k | 0 <= k < |Priority| ensures result(Priority[k]).None? <==> Search(Priority[k], t).None? {
    }
    if ParseMaterialText(t).Some? {
      var k :| 0 <= k < |Priority| && ParseMaterialText(t) == result(Priority[k])
               && forall j | 0 <= j < k :: result(Priority[j]).None?;
      assert Search(Priority[k], t).Some?;
      assert ParseMaterialText(t).value == Groups(t, Search(Priority[k], t).value);
    }
  }

  /** The name group of a match lies on one line, and stripping keeps it so. */
  lemma GroupsNameOneLine(t: string, m: Span)
    requires WellFormed(t, m)
    ensures !HasChar(Groups(t, m).name, '\n')
  {
    var slice := t[m.nameStart..m.nameEnd];
    forall p | 0 <= p < |slice| ensures slice[p] != '\n' {
      assert slice[p] == t[m.nameStart + p];
    }
    StripKeepsAbsent(slice, '\n');
  }

  /** A parsed name never spans a line break: `.` does not match a newline, and stripping only removes characters. */
  lemma ParsedNameIsOneLine(t: string)
    requires ParseMaterialText(t).Some?
    ensures !HasChar(ParseMaterialText(t).value.name, '\n')
  {
    FirstShapeWins(t);
    var k :| 0 <= k < |Priority| && Search(Priority[k], t).Some?
             && ParseMaterialText(t).value == Groups(t, Search(Priority[k], t).value);
    GroupsNameOneLine(t, Search(Priority[k], t).value);
  }

  /** A text without a colon cannot match the colon shape (likewise the other separators). */
  lemma NoSeparatorNoMatch(shape: Shape, t: string, c: char)
    requires shape != TimesBefore
    requires shape == Colon ==> c == ':'
    requires shape == Paren ==> c == '('
    requires shape == Dash ==> c == '-'
    requires shape == TimesAfter ==> c == 'x' && !HasChar(t, 'X')
    requires !HasChar(t, c)
    ensures Search(shape, t).None?
  {
    SearchIsLeftmostLazy(shape, t);
  }

  /** A name-first shape that admits a name at the very start, and no shorter one, reports exactly that name. */
  lemma MatchFromStart(shape: Shape, t: string, e: nat)
    requires NameFirstAt(shape, t, 0, e)
    requires forall e': nat :: 0 < e' < e ==> TailAt(shape, t, e').None?
    ensures Search(shape, t) == Some(Span(0, e, TailAt(shape, t, e).value.0, TailAt(shape, t, e).value.1))
  {
    SearchIsLeftmostLazy(shape, t);
    var m := Search(shape, t).value;
    assert m.nameStart == 0;
    assert NameFirstAt(shape, t, 0, m.nameEnd);
  }

  /** When every higher-priority shape fails and shape `k` matches, the parse is shape `k`'s groups. */
  lemma ParseByShape(t: string, k: nat)
    requires k < |Priority| && Search(Priority[k], t).Some?
    requires forall j | 0 <= j < k :: Search(Priority[j], t).None?
    ensures ParseMaterialText(t) == Some(Groups(t, Search(Priority[k], t).value))
  {
    FirstShapeWins(t);
    if ParseMaterialText(t).Some? {
      var k' :| 0 <= k' < |Priority| && Search(Priority[k'], t).Some?
        && ParseMaterialText(t).value == Groups(t, Search(Priority[k'], t).value)
        && forall j | 0 <= j < k' :: Search(Priority[j], t).None?;
      assert k' == k;
    }
  }

  /** The colon shape is tried first: when it matches, it decides the parse. */
  lemma ParsedByColon(t: string, m: Span)
    requires Search(Colon, t) == Some(m)
    ensures ParseMaterialText(t) == Some(Groups(t, m))
  {
    ParseByShape(t, 0);
  }

  /** When the colon shape fails and the parenthesis shape matches, the latter decides the parse. */
  lemma ParsedByParen(t: string, m: Span)
    requires Search(Colon, t).None? && Search(Paren, t) == Some(m)
    ensures ParseMaterialText(t) == Some(Groups(t, m))
  {
    assert Priority[0] == Colon;
    ParseByShape(t, 1);
  }

  /** When the colon and parenthesis shapes fail and `NAME x Q` matches, the latter decides the parse. */
  lemma ParsedByTimesAfter(t: string, m: Span)
    requires Search(Colon, t).None? && Search(Paren, t).None? && Search(TimesAfter, t) == Some(m)
    ensures ParseMaterialText(t) == Some(Groups(t, m))
  {
    assert Priority[0] == Colon && Priority[1] == Paren;
    ParseByShape(t, 2);
  }

  lemma AbsentFromConcat(a: string, b: string, c: char)
    requires !HasChar(a, c) && !HasChar(b, c)
    ensures !HasChar(a + b, c)
  {
  }

  lemma NoSpecialInSpaces(spaces: string, c: char)
    requires AllSpaces(spaces) && !IsSpace(c)
    ensures !HasChar(spaces, c)
  {
  }

  /** A character absent from every piece of the five-piece layout is absent from the whole text. */
  lemma AbsentFromPieces(p0: string, p1: string, p2: string, p3: string, p4: string, p5: string, c: char)
    requires !HasChar(p0, c) && !HasChar(p1, c) && !HasChar(p2, c)
    requires !HasChar(p3, c) && !HasChar(p4, c) && !HasChar(p5, c)
    ensures !HasChar(p0 + p1 + p2 + p3 + p4 + p5, c)
  {
    AbsentFromConcat(p0, p1, c);
    AbsentFromConcat(p0 + p1, p2, c);
    AbsentFromConcat(p0 + p1 + p2, p3, c);
    AbsentFromConcat(p0 + p1 + p2 + p3, p4, c);
    AbsentFromConcat(p0 + p1 + p2 + p3 + p4, p5, c);
  }

  /**
   * When `t` starts with a name that ends in a non-space and holds no
   * separator `c`, no name ending inside that name is followed (after
   * optional whitespace) by `c`.
   */
  lemma NoEarlierSeparator(t: string, e: nat, e': nat, c: char)
    requires 0 < e' < e <= |t| && !IsSpace(t[e - 1]) && !IsSpace(c)
    requires forall k | 0 <= k < e :: t[k] != c
    ensures var w := SkipSpaces(t, e'); w < |t| && t[w] != c
  {
  }

  lemma NameIsOneLine(t: string, name: string)
    requires name <= t && !HasChar(name, '\n')
    ensures OneLine(t, 0, |name|)
  {
    forall k | 0 <= k < |name| ensures t[k] != '\n' {
      assert t[k] == name[k];
    }
  }

  /**
   * The colon layout, stated on positions: a one-line name `t[..e]` without a
   * colon, the colon at `e`, whitespace up to `a`, and a maximal digit run
   * `t[a..b]`. The lazy name is then the whole of `t[..e]`.
   */
  lemma ColonLayout(t: string, e: nat, a: nat, b: nat)
    requires 0 < e < a < b <= |t|
    requires forall k | 0 <= k < e :: t[k] != ':' && t[k] != '\n'
    requires t[e] == ':' && AllSpaces(t[e + 1..a]) && AllDigits(t[a..b])
    requires b == |t| || !IsDigit(t[b])
    ensures Search(Colon, t) == Some(Span(0, e, a, b))
    ensures ParseMaterialText(t) == Some(Parsed(Strip(t[..e]), DigitsValue(t[a..b])))
  {
    assert t[a] == t[a..b][0];
    SkipSpacesOverSlice(t, e + 1, a);
    SkipDigitsOverSlice(t, a, b);
    assert TailAt(Colon, t, e) == Some((a, b));
    forall e': nat | 0 < e' < e ensures TailAt(Colon, t, e').None? {
    }
    assert OneLine(t, 0, e);
    MatchFromStart(Colon, t, e);
    ParsedByColon(t, Span(0, e, a, b));
    assert t[0..e] == t[..e];
  }

  /**
   * Round trip of the colon shape: formatting a one-line name without a colon
   * as `NAME:` + spaces + the number, followed by anything that does not start
   * with a digit, parses back to the stripped name and the number.
   */
  lemma ColonRoundTrip(name: string, spaces: string, n: nat, rest: string)
    requires name != [] && !HasChar(name, ':') && !HasChar(name, '\n')
    requires AllSpaces(spaces)
    requires rest == [] || !IsDigit(rest[0])
    ensures ParseMaterialText(name + ":" + spaces + NatToString(n) + rest) == Some(Parsed(Strip(name), n))
  {
    var num := NatToString(n);
    var t := name + ":" + spaces + num + rest;
    var e := |name|;
    var a := e + 1 + |spaces|;
    var b := a + |num|;
    Concat5(name, ":", spaces, num, rest);
    assert t[..e] == name && t[a..b] == num;
    forall k | 0 <= k < e ensures t[k] != ':' && t[k] != '\n' {
      assert t[k] == t[..e][k];
    }
    assert t[e] == t[e..e + 1][0];
    assert b < |t| ==> t[b] == t[b..][0];
    ColonLayout(t, e, a, b);
    NatToStringRoundTrip(n);
  }

  /**
   * The parenthesis layout, stated on positions: a one-line name `t[..e]`
   * without `(` that ends in a non-space, whitespace up to `w`, then `(`, a
   * digit run `t[w + 1..b]` and `)`. The lazy name is then the whole of `t[..e]`.
   */
  lemma ParenLayout(t: string, e: nat, w: nat, b: nat)
    requires 0 < e <= w && w + 1 < b < |t|
    requires forall k | 0 <= k < e :: t[k] != '(' && t[k] != '\n'
    requires !IsSpace(t[e - 1])
    requires AllSpaces(t[e..w]) && t[w] == '(' && AllDigits(t[w + 1..b]) && t[b] == ')'
    requires Search(Colon, t).None?
    ensures Search(Paren, t) == Some(Span(0, e, w + 1, b))
    ensures ParseMaterialText(t) == Some(Parsed(Strip(t[..e]), DigitsValue(t[w + 1..b])))
  {
    SkipSpacesOverSlice(t, e, w);
    SkipDigitsOverSlice(t, w + 1, b);
    assert TailAt(Paren, t, e) == Some((w + 1, b));
    forall e': nat | 0 < e' < e ensures TailAt(Paren, t, e').None? {
      NoEarlierSeparator(t, e, e', '(');
    }
    assert OneLine(t, 0, e);
    MatchFromStart(Paren, t, e);
    ParsedByParen(t, Span(0, e, w + 1, b));
    assert t[0..e] == t[..e];
  }

  /**
   * Round trip of the parenthesis shape: `NAME` + spaces + `(` + the number +
   * `)` + a rest without a colon parses back to the stripped name and the
   * number, when the name has no colon, parenthesis or newline and does not
   * end in whitespace.
   */
  lemma ParenRoundTrip(name: string, spaces: string, n: nat, rest: string)
    requires name != [] && !IsSpace(name[|name| - 1])
    requires !HasChar(name, ':') && !HasChar(name, '(') && !HasChar(name, '\n')
    requires AllSpaces(spaces) && !HasChar(rest, ':')
    ensures ParseMaterialText(name + spaces + "(" + NatToString(n) + ")" + rest) == Some(Parsed(Strip(name), n))
  {
    var num := NatToString(n);
    var t := name + spaces + "(" + num + ")" + rest;
    var e := |name|;
    var w := e + |spaces|;
    var b := w + 1 + |num|;
    assert Search(Colon, t).None? by {
      NoSpecialInSpaces(spaces, ':');
      AbsentFromPieces(name, spaces, "(", num, ")", rest, ':');
      NoSeparatorNoMatch(Colon, t, ':');
    }
    Concat6(name, spaces, "(", num, ")", rest);
    assert t[..e] == name && t[w + 1..b] == num;
    forall k | 0 <= k < e ensures t[k] != '(' && t[k] != '\n' {
      assert t[k] == t[..e][k];
    }
    assert t[e - 1] == t[..e][e - 1];
    assert t[w] == t[w..w + 1][0];
    assert t[b] == t[b..b + 1][0];
    ParenLayout(t, e, w, b);
    NatToStringRoundTrip(n);
  }

  /**
   * The `NAME x Q` layout, stated on positions: a one-line name `t[..e]`
   * without `x` or `X` that ends in a non-space, whitespace up to `w`, then
   * `x`, whitespace up to `a` and a maximal digit run `t[a..b]`. The lazy
   * name is then the whole of `t[..e]`.
   */
  lemma TimesLayout(t: string, e: nat, w: nat, a: nat, b: nat)
    requires 0 < e <= w < a < b <= |t|
    requires forall k | 0 <= k < e :: t[k] != 'x' && t[k] != 'X' && t[k] != '\n'
    requires !IsSpace(t[e - 1])
    requires AllSpaces(t[e..w]) && t[w] == 'x' && AllSpaces(t[w + 1..a]) && AllDigits(t[a..b])
    requires b == |t| || !IsDigit(t[b])
    requires Search(Colon, t).None? && Search(Paren, t).None?
    ensures Search(TimesAfter, t) == Some(Span(0, e, a, b))
    ensures ParseMaterialText(t) == Some(Parsed(Strip(t[..e]), DigitsValue(t[a..b])))
  {
    assert t[a] == t[a..b][0];
    SkipSpacesOverSlice(t, e, w);
    SkipSpacesOverSlice(t, w + 1, a);
    SkipDigitsOverSlice(t, a, b);
    assert TailAt(TimesAfter, t, e) == Some((a, b));
    forall e': nat | 0 < e' < e ensures TailAt(TimesAfter, t, e').None? {
      NoEarlierSeparator(t, e, e', 'x');
      NoEarlierSeparator(t, e, e', 'X');
    }
    assert OneLine(t, 0, e);
    MatchFromStart(TimesAfter, t, e);
    ParsedByTimesAfter(t, Span(0, e, a, b));
    assert t[0..e] == t[..e];
  }

  /**
   * Round trip of the `NAME x Q` shape: `NAME` + spaces + `x` + spaces + the
   * number + a rest that starts with no digit, with no colon or parenthesis
   * anywhere, parses back to the stripped name and the number, when the name
   * has no `x`, `X` or newline and does not end in whitespace.
   */
  lemma TimesRoundTrip(name: string, sp1: string, sp2: string, n: nat, rest: string)
    requires name != [] && !IsSpace(name[|name| - 1])
    requires !HasChar(name, ':') && !HasChar(name, '(') && !HasChar(name, '\n')
    requires !HasChar(name, 'x') && !HasChar(name, 'X')
    requires AllSpaces(sp1) && AllSpaces(sp2)
    requires !HasChar(rest, ':') && !HasChar(rest, '(') && (rest == [] || !IsDigit(rest[0]))
    ensures ParseMaterialText(name + sp1 + "x" + sp2 + NatToString(n) + rest) == Some(Parsed(Strip(name), n))
  {
    var num := NatToString(n);
    var t := name + sp1 + "x" + sp2 + num + rest;
    var e := |name|;
    var w := e + |sp1|;
    var a := w + 1 + |sp2|;
    var b := a + |num|;
    assert Search(Colon, t).None? && Search(Paren, t).None? by {
      NoSpecialInSpaces(sp1, ':');
      NoSpecialInSpaces(sp2, ':');
      NoSpecialInSpaces(sp1, '(');
      NoSpecialInSpaces(sp2, '(');
      AbsentFromPieces(name, sp1, "x", sp2, num, rest, ':');
      AbsentFromPieces(name, sp1, "x", sp2, num, rest, '(');
      NoSeparatorNoMatch(Colon, t, ':');
      NoSeparatorNoMatch(Paren, t, '(');
    }
    Concat6(name, sp1, "x", sp2, num, rest);
    assert t[..e] == name && t[a..b] == num;
    forall k | 0 <= k < e ensures t[k] != 'x' && t[k] != 'X' && t[k] != '\n' {
      assert t[k] == t[..e][k];
    }
    assert t[e - 1] == t[..e][e - 1];
    assert t[w] == t[w..w + 1][0];
    assert b < |t| ==> t[b] == t[b..][0];
    TimesLayout(t, e, w, a, b);
    NatToStringRoundTrip(n);
  }

  /** When every shape before `Q x NAME` fails and it matches, it decides the parse. */
  lemma ParsedByTimesBefore(t: string, m: Span)
    requires Search(Colon, t).None? && Search(Paren, t).None? && Search(TimesAfter, t).None?
    requires Search(TimesBefore, t) == Some(m)
    ensures ParseMaterialText(t) == Some(Groups(t, m))
  {
    assert Priority[0] == Colon && Priority[1] == Paren && Priority[2] == TimesAfter;
    ParseByShape(t, 3);
  }

  /** When the four other shapes fail and `NAME - Q` matches, the latter decides the parse. */
  lemma ParsedByDash(t: string, m: Span)
    requires Search(Colon, t).None? && Search(Paren, t).None? && Search(TimesAfter, t).None?
    requires Search(TimesBefore, t).None? && Search(Dash, t) == Some(m)
    ensures ParseMaterialText(t) == Some(Groups(t, m))
  {
    assert Priority[0] == Colon && Priority[1] == Paren && Priority[2] == TimesAfter && Priority[3] == TimesBefore;
    ParseByShape(t, 4);
  }

  /** No `x` or `X` of `s` is followed, after optional whitespace, by a digit. */
  predicate NoTimesThenDigit(s: string) {
    forall k {:trigger IsTimes(s[k])} | 0 <= k < |s| && IsTimes(s[k]) ::
      var j := SkipSpaces(s, k + 1); j == |s| || !IsDigit(s[j])
  }

  /** Without an `x` followed by a number, the `NAME x Q` shape cannot match. */
  lemma NoTimesThenDigitNoMatch(t: string)
    requires NoTimesThenDigit(t)
    ensures Search(TimesAfter, t).None?
  {
    SearchIsLeftmostLazy(TimesAfter, t);
    forall s: nat, e: nat | NameFirstAt(TimesAfter, t, s, e) ensures false {
    }
  }

  /** Without any `x` or `X`, the `Q x NAME` shape cannot match. */
  lemma NoTimesNoTimesBefore(t: string)
    requires !HasChar(t, 'x') && !HasChar(t, 'X')
    ensures Search(TimesBefore, t).None?
  {
    if Search(TimesBefore, t).Some? {
      var k := SearchFromWitness(TimesBefore, t, 0);
    }
  }

  /** Skipping whitespace inside a suffix is the same as skipping it in the whole text. */
  lemma {:induction false} SkipSpacesInSuffix(p: string, s: string, i: nat)
    requires i <= |s|
    ensures SkipSpaces(p + s, |p| + i) == |p| + SkipSpaces(s, i)
    decreases |s| - i
  {
    if i < |s| {
      assert (p + s)[|p| + i] == s[i];
      if IsSpace(s[i]) {
        SkipSpacesInSuffix(p, s, i + 1);
      }
    }
  }

  /**
   * The `Q x NAME` layout, stated on positions: a digit run `t[..d]`,
   * whitespace up to `w`, then `x` or `X`, whitespace up to `a`, and a rest
   * of the line `t[a..]` that starts with a non-space. The match is at the
   * very start, and the name group runs to the end.
   */
  lemma TimesBeforeLayout(t: string, d: nat, w: nat, a: nat)
    requires 0 < d <= w < a < |t|
    requires AllDigits(t[..d]) && AllSpaces(t[d..w]) && IsTimes(t[w]) && AllSpaces(t[w + 1..a])
    requires !IsSpace(t[a]) && OneLine(t, a, |t|)
    ensures Search(TimesBefore, t) == Some(Span(a, |t|, 0, d))
  {
    assert t[d] == if d < w then t[d..w][0] else t[w];
    assert t[..d] == t[0..d];
    SkipDigitsOverSlice(t, 0, d);
    SkipSpacesOverSlice(t, d, w);
    SkipSpacesOverSlice(t, w + 1, a);
    assert NameStartAfterTimes(t, w + 1, a) == Some(a);
    assert LineEnd(t, a) == |t|;
    assert TimesBeforeAt(t, 0) == Some(Span(a, |t|, 0, d));
    FirstSuccessFinds(Attempts(TimesBefore, t), 0, |t|, 0);
  }

  /**
   * In the `Q x NAME` layout, stated on positions, no `x` is followed by a
   * number: the only `x` before the name, at `w`, is followed by whitespace
   * and a name that starts with a non-digit.
   */
  lemma TimesBeforeSkipsTimesAfter(t: string, w: nat, a: nat)
    requires w < a < |t|
    requires forall k | 0 <= k < w :: !IsTimes(t[k])
    requires forall k | w < k < a :: IsSpace(t[k])
    requires !IsSpace(t[a]) && !IsDigit(t[a])
    requires NoTimesThenDigit(t[a..])
    ensures NoTimesThenDigit(t)
  {
    forall k | 0 <= k < |t| && IsTimes(t[k])
      ensures var j := SkipSpaces(t, k + 1); j == |t| || !IsDigit(t[j])
    {
      if k < w {
        assert false;
      } else if k == w {
        SkipSpacesOver(t, w + 1, a);
      } else if k < a {
        assert false;
      } else {
        TimesInSuffix(t, a, k);
      }
    }
  }

  /** An `x` inside the suffix `t[a..]` is followed by the same characters in `t`. */
  lemma TimesInSuffix(t: string, a: nat, k: nat)
    requires a <= k < |t| && IsTimes(t[k]) && NoTimesThenDigit(t[a..])
    ensures var j := SkipSpaces(t, k + 1); j == |t| || !IsDigit(t[j])
  {
    var name := t[a..];
    assert name[k - a] == t[k] && IsTimes(name[k - a]);
    assert t[..a] + name == t;
    SkipSpacesInSuffix(t[..a], name, k - a + 1);
    var j := SkipSpaces(name, k - a + 1);
    if j < |name| {
      assert t[a + j] == name[j];
    }
  }

  /**
   * The `Q x NAME` layout decides the parse when no colon or parenthesis
   * shape matches and no `x` is followed by a number.
   */
  lemma TimesBeforeParse(t: string, d: nat, w: nat, a: nat)
    requires 0 < d <= w < a < |t|
    requires AllDigits(t[..d]) && AllSpaces(t[d..w]) && IsTimes(t[w]) && AllSpaces(t[w + 1..a])
    requires !IsSpace(t[a]) && OneLine(t, a, |t|)
    requires Search(Colon, t).None? && Search(Paren, t).None? && NoTimesThenDigit(t)
    ensures ParseMaterialText(t) == Some(Parsed(Strip(t[a..]), DigitsValue(t[..d])))
  {
    NoTimesThenDigitNoMatch(t);
    TimesBeforeLayout(t, d, w, a);
    ParsedByTimesBefore(t, Span(a, |t|, 0, d));
    assert t[a..|t|] == t[a..] && t[0..d] == t[..d];
  }

  /** A text without `x` or `X` has no `x` followed by a number. */
  lemma NoTimesThenDigitWithoutTimes(s: string)
    requires !HasChar(s, 'x') && !HasChar(s, 'X')
    ensures NoTimesThenDigit(s)
  {
  }

  /**
   * Round trip of the `Q x NAME` shape, whose groups come back swapped: the
   * number + spaces + `x` + spaces + a one-line name parses back to the
   * stripped name and the number, when the text has no colon or parenthesis,
   * the name starts with neither a space nor a digit, and no `x` of the name
   * is followed by a number (else an earlier shape would match).
   */
  lemma TimesBeforeRoundTrip(n: nat, sp1: string, sp2: string, name: string)
    requires AllSpaces(sp1) && AllSpaces(sp2)
    requires name != [] && !IsSpace(name[0]) && !IsDigit(name[0])
    requires !HasChar(name, ':') && !HasChar(name, '(') && !HasChar(name, '\n')
    requires NoTimesThenDigit(name)
    ensures ParseMaterialText(NatToString(n) + sp1 + "x" + sp2 + name) == Some(Parsed(Strip(name), n))
  {
    TimesBeforeParsePieces(NatToString(n), sp1, sp2, name);
    NatToStringRoundTrip(n);
  }

  /** The `Q x NAME` round trip for any non-empty digit run `num` in place of the number. */
  lemma TimesBeforeParsePieces(num: string, sp1: string, sp2: string, name: string)
    requires num != [] && AllDigits(num) && AllSpaces(sp1) && AllSpaces(sp2)
    requires name != [] && !IsSpace(name[0]) && !IsDigit(name[0])
    requires !HasChar(name, ':') && !HasChar(name, '(') && !HasChar(name, '\n')
    requires NoTimesThenDigit(name)
    ensures ParseMaterialText(num + sp1 + "x" + sp2 + name) == Some(Parsed(Strip(name), DigitsValue(num)))
  {
    var t := num + sp1 + "x" + sp2 + name;
    var d := |num|;
    var w := d + |sp1|;
    var a := w + 1 + |sp2|;
    assert 0 < d <= w < a < |t| && t[..d] == num && t[a..] == name
      && AllDigits(t[..d]) && AllSpaces(t[d..w]) && IsTimes(t[w]) && AllSpaces(t[w + 1..a])
      && !IsSpace(t[a]) && OneLine(t, a, |t|) by {
      TimesBeforePieces(num, sp1, sp2, name);
    }
    assert Search(Colon, t).None? && Search(Paren, t).None? by {
      TimesBeforeSkipsEarlierShapes(num, sp1, sp2, name);
    }
    assert NoTimesThenDigit(t) by {
      TimesBeforePieces(num, sp1, sp2, name);
      TimesBeforeSkipsTimesAfter(t, w, a);
    }
    TimesBeforeParse(t, d, w, a);
  }

  /** The positions of the pieces of the `Q x NAME` layout. */
  lemma TimesBeforePieces(num: string, sp1: string, sp2: string, name: string)
    requires num != [] && AllDigits(num) && AllSpaces(sp1) && AllSpaces(sp2)
    requires name != [] && !IsSpace(name[0]) && !IsDigit(name[0]) && !HasChar(name, '\n')
    ensures var t := num + sp1 + "x" + sp2 + name;
      var d := |num|; var w := d + |sp1|; var a := w + 1 + |sp2|;
      && 0 < d <= w < a < |t|
      && AllDigits(t[..d]) && AllSpaces(t[d..w]) && IsTimes(t[w]) && AllSpaces(t[w + 1..a])
      && !IsSpace(t[a]) && !IsDigit(t[a]) && OneLine(t, a, |t|) && t[..d] == num && t[a..] == name
      && (forall k | 0 <= k < w :: !IsTimes(t[k]))
      && (forall k | w < k < a :: IsSpace(t[k]))
  {
    var t := num + sp1 + "x" + sp2 + name;
    var d := |num|;
    var w := d + |sp1|;
    var a := w + 1 + |sp2|;
    Concat5(num, sp1, "x", sp2, name);
    assert t[w] == t[w..w + 1][0];
    assert t[a] == name[0];
    forall k | 0 <= k < w ensures !IsTimes(t[k]) {
      if k < d {
        assert t[k] == num[k];
      } else {
        assert t[k] == sp1[k - d];
      }
    }
    forall k | w < k < a ensures IsSpace(t[k]) {
      assert t[k] == sp2[k - w - 1];
    }
    forall k | a <= k < |t| ensures t[k] != '\n' {
      assert t[k] == name[k - a];
    }
  }

  /** In the `Q x NAME` layout without colon or parenthesis, neither of the two first shapes matches. */
  lemma TimesBeforeSkipsEarlierShapes(num: string, sp1: string, sp2: string, name: string)
    requires AllDigits(num) && AllSpaces(sp1) && AllSpaces(sp2)
    requires !HasChar(name, ':') && !HasChar(name, '(')
    ensures var t := num + sp1 + "x" + sp2 + name;
      Search(Colon, t).None? && Search(Paren, t).None?
  {
    var t := num + sp1 + "x" + sp2 + name;
    assert t == num + sp1 + "x" + sp2 + name + "";
    NoSpecialInSpaces(sp1, ':');
    NoSpecialInSpaces(sp2, ':');
    NoSpecialInSpaces(sp1, '(');
    NoSpecialInSpaces(sp2, '(');
    AbsentFromPieces(num, sp1, "x", sp2, name, "", ':');
    AbsentFromPieces(num, sp1, "x", sp2, name, "", '(');
    NoSeparatorNoMatch(Colon, t, ':');
    NoSeparatorNoMatch(Paren, t, '(');
  }

  /**
   * The `NAME - Q` layout, stated on positions: a one-line name `t[..e]`
   * without `-` that ends in a non-space, whitespace up to `w`, then `-`,
   * whitespace up to `a` and a maximal digit run `t[a..b]`. The lazy name is
   * then the whole of `t[..e]`.
   */
  lemma DashLayout(t: string, e: nat, w: nat, a: nat, b: nat)
    requires 0 < e <= w < a < b <= |t|
    requires forall k | 0 <= k < e :: t[k] != '-' && t[k] != '\n'
    requires !IsSpace(t[e - 1])
    requires AllSpaces(t[e..w]) && t[w] == '-' && AllSpaces(t[w + 1..a]) && AllDigits(t[a..b])
    requires b == |t| || !IsDigit(t[b])
    requires Search(Colon, t).None? && Search(Paren, t).None?
    requires Search(TimesAfter, t).None? && Search(TimesBefore, t).None?
    ensures Search(Dash, t) == Some(Span(0, e, a, b))
    ensures ParseMaterialText(t) == Some(Parsed(Strip(t[..e]), DigitsValue(t[a..b])))
  {
    assert t[a] == t[a..b][0];
    SkipSpacesOverSlice(t, e, w);
    SkipSpacesOverSlice(t, w + 1, a);
    SkipDigitsOverSlice(t, a, b);
    assert TailAt(Dash, t, e) == Some((a, b));
    forall e': nat | 0 < e' < e ensures TailAt(Dash, t, e').None? {
      NoEarlierSeparator(t, e, e', '-');
    }
    assert OneLine(t, 0, e);
    MatchFromStart(Dash, t, e);
    ParsedByDash(t, Span(0, e, a, b));
    assert t[0..e] == t[..e];
  }

  /** In the `NAME - Q` layout without colon, parenthesis or `x`, none of the four earlier shapes matches. */
  lemma DashSkipsEarlierShapes(name: string, sp1: string, sp2: string, num: string, rest: string)
    requires AllSpaces(sp1) && AllSpaces(sp2) && AllDigits(num)
    requires !HasChar(name, ':') && !HasChar(name, '(') && !HasChar(name, 'x') && !HasChar(name, 'X')
    requires !HasChar(rest, ':') && !HasChar(rest, '(') && !HasChar(rest, 'x') && !HasChar(rest, 'X')
    ensures var t := name + sp1 + "-" + sp2 + num + rest;
      Search(Colon, t).None? && Search(Paren, t).None? && Search(TimesAfter, t).None? && Search(TimesBefore, t).None?
  {
    var t := name + sp1 + "-" + sp2 + num + rest;
    assert Search(Colon, t).None? && Search(Paren, t).None? by {
      NoSpecialInSpaces(sp1, ':');
      NoSpecialInSpaces(sp2, ':');
      NoSpecialInSpaces(sp1, '(');
      NoSpecialInSpaces(sp2, '(');
      AbsentFromPieces(name, sp1, "-", sp2, num, rest, ':');
      AbsentFromPieces(name, sp1, "-", sp2, num, rest, '(');
      NoSeparatorNoMatch(Colon, t, ':');
      NoSeparatorNoMatch(Paren, t, '(');
    }
    assert Search(TimesAfter, t).None? && Search(TimesBefore, t).None? by {
      NoSpecialInSpaces(sp1, 'x');
      NoSpecialInSpaces(sp2, 'x');
      NoSpecialInSpaces(sp1, 'X');
      NoSpecialInSpaces(sp2, 'X');
      AbsentFromPieces(name, sp1, "-", sp2, num, rest, 'x');
      AbsentFromPieces(name, sp1, "-", sp2, num, rest, 'X');
      NoSeparatorNoMatch(TimesAfter, t, 'x');
      NoTimesNoTimesBefore(t);
    }
  }

  /**
   * Round trip of the `NAME - Q` shape, the last one tried: `NAME` + spaces +
   * `-` + spaces + the number + a rest that starts with no digit parses back
   * to the stripped name and the number, when the text has no colon,
   * parenthesis, `x` or `X` (so no earlier shape matches) and the name has no
   * `-` or newline and does not end in whitespace.
   */
  lemma DashRoundTrip(name: string, sp1: string, sp2: string, n: nat, rest: string)
    requires name != [] && !IsSpace(name[|name| - 1])
    requires !HasChar(name, ':') && !HasChar(name, '(') && !HasChar(name, '\n') && !HasChar(name, '-')
    requires !HasChar(name, 'x') && !HasChar(name, 'X')
    requires AllSpaces(sp1) && AllSpaces(sp2)
    requires !HasChar(rest, ':') && !HasChar(rest, '(') && !HasChar(rest, 'x') && !HasChar(rest, 'X')
    requires rest == [] || !IsDigit(rest[0])
    ensures ParseMaterialText(name + sp1 + "-" + sp2 + NatToString(n) + rest) == Some(Parsed(Strip(name), n))
  {
    var num := NatToString(n);
    var t := name + sp1 + "-" + sp2 + num + rest;
    var e := |name|;
    var w := e + |sp1|;
    var a := w + 1 + |sp2|;
    var b := a + |num|;
    DashSkipsEarlierShapes(name, sp1, sp2, num, rest);
    Concat6(name, sp1, "-", sp2, num, rest);
    assert t[..e] == name && t[a..b] == num;
    forall k | 0 <= k < e ensures t[k] != '-' && t[k] != '\n' {
      assert t[k] == t[..e][k];
    }
    assert t[e - 1] == t[..e][e - 1];
    assert t[w] == t[w..w + 1][0];
    assert b < |t| ==> t[b] == t[b..][0];
    DashLayout(t, e, w, a, b);
    NatToStringRoundTrip(n);
  }

  lemma SkipSpacesOver(t: string, i: nat, j: nat)
    requires i <= j <= |t|
    requires forall k | i <= k < j :: IsSpace(t[k])
    requires j == |t| || !IsSpace(t[j])
    ensures SkipSpaces(t, i) == j
    decreases j - i
  {
    if i < j {
      SkipSpacesOver(t, i + 1, j);
    }
  }

  lemma SkipDigitsOver(t: string, i: nat, j: nat)
    requires i <= j <= |t|
    requires forall k | i <= k < j :: IsDigit(t[k])
    requires j == |t| || !IsDigit(t[j])
    ensures SkipDigits(t, i) == j
    decreases j - i
  {
    if i < j {
      SkipDigitsOver(t, i + 1, j);
    }
  }

  /** `SkipSpaces` over a slice that is all whitespace and is followed by a non-space. */
  lemma SkipSpacesOverSlice(t: string, i: nat, j: nat)
    requires i <= j <= |t| && AllSpaces(t[i..j])
    requires j == |t| || !IsSpace(t[j])
    ensures SkipSpaces(t, i) == j
  {
    forall k | i <= k < j ensures IsSpace(t[k]) {
      assert t[k] == t[i..j][k - i];
    }
    SkipSpacesOver(t, i, j);
  }

  /** `SkipDigits` over a slice that is all digits and is followed by a non-digit. */
  lemma SkipDigitsOverSlice(t: string, i: nat, j: nat)
    requires i <= j <= |t| && AllDigits(t[i..j])
    requires j == |t| || !IsDigit(t[j])
    ensures SkipDigits(t, i) == j
  {
    forall k | i <= k < j ensures IsDigit(t[k]) {
      assert t[k] == t[i..j][k - i];
    }
    SkipDigitsOver(t, i, j);
  }

  /** `_parse_quantity` reads back a number printed after digit-free text and before a non-digit. */
  lemma QuantityRoundTrip(before: string, n: nat, after: string)
    requires forall k | 0 <= k < |before| :: !IsDigit(before[k])
    requires after == [] || !IsDigit(after[0])
    ensures ParseQuantity(before + NatToString(n) + after) == Some(n)
  {
    var num := NatToString(n);
    var t := before + num + after;
    var i := |before|;
    var j := i + |num|;
    assert FirstDigit(t, 0) == i by {
      FirstDigitOver(t, 0, i);
    }
    assert SkipDigits(t, i) == j by {
      assert j == |t| || t[j] == after[0];
      SkipDigitsOver(t, i, j);
    }
    assert t[i..j] == num;
    NatToStringRoundTrip(n);
  }

  lemma FirstDigitOver(t: string, i: nat, j: nat)
    requires i <= j < |t| && IsDigit(t[j])
    requires forall k | i <= k < j :: !IsDigit(t[k])
    ensures FirstDigit(t, i) == j
    decreases j - i
  {
    if i < j {
      FirstDigitOver(t, i + 1, j);
    }
  }

  /** Worked example: the colon shape outranks the parenthesis that follows it. */
  lemma ColonExample()
    ensures ParseMaterialText("Steel: 5 (rare)") == Some(Parsed("Steel", 5))
  {
    assert Strip("Steel") == "Steel";
    assert "Steel: 5 (rare)" == "Steel" + ":" + " " + NatToString(5) + " (rare)";
    ColonRoundTrip("Steel", " ", 5, " (rare)");
  }

  lemma ParenExample()
    ensures ParseMaterialText("Steel (5)") == Some(Parsed("Steel", 5))
  {
    assert Strip("Steel") == "Steel";
    assert "Steel (5)" == "Steel" + " " + "(" + NatToString(5) + ")" + "";
    ParenRoundTrip("Steel", " ", 5, "");
  }

  lemma TimesExample()
    ensures ParseMaterialText("Polymer x3") == Some(Parsed("Polymer", 3))
  {
    assert Strip("Polymer") == "Polymer";
    assert "Polymer x3" == "Polymer" + " " + "x" + "" + NatToString(3) + "";
    TimesRoundTrip("Polymer", " ", "", 3, "");
  }

  lemma ScrapExample()
    ensures ParseMaterialText("Scrap x1") == Some(Parsed("Scrap", 1))
  {
    assert Strip("Scrap") == "Scrap";
    assert "Scrap x1" == "Scrap" + " " + "x" + "" + NatToString(1) + "";
    TimesRoundTrip("Scrap", " ", "", 1, "");
  }

  /** Worked example: the quantity comes first and the groups are swapped. */
  lemma TimesBeforeExample()
    ensures ParseMaterialText("3x Metal Parts") == Some(Parsed("Metal Parts", 3))
  {
    var t := NatToString(3) + "" + "x" + " " + "Metal Parts";
    assert t == "3x Metal Parts";
    assert Strip("Metal Parts") == "Metal Parts";
    MetalPartsIsAName();
    TimesBeforeRoundTrip(3, "", " ", "Metal Parts");
  }

  /** The name of the example meets the conditions of the `Q x NAME` round trip. */
  lemma MetalPartsIsAName()
    ensures !HasChar("Metal Parts", ':') && !HasChar("Metal Parts", '(') && !HasChar("Metal Parts", '\n')
    ensures NoTimesThenDigit("Metal Parts")
  {
    assert !HasChar("Metal Parts", 'x') && !HasChar("Metal Parts", 'X');
    NoTimesThenDigitWithoutTimes("Metal Parts");
  }

  lemma DashExample()
    ensures ParseMaterialText("Steel - 5") == Some(Parsed("Steel", 5))
  {
    assert Strip("Steel") == "Steel";
    assert "Steel - 5" == "Steel" + " " + "-" + " " + NatToString(5) + "";
    DashRoundTrip("Steel", " ", " ", 5, "");
  }

  /** Worked examples: a quantity cell yields its first run of digits. */
  lemma QuantityExamples()
    ensures ParseQuantity("12 units") == Some(12)
    ensures ParseQuantity("x2 pending") == Some(2)
  {
    assert "12 units" == "" + NatToString(12) + " units";
    QuantityRoundTrip("", 12, " units");
    assert "x2 pending" == "x" + NatToString(2) + " pending";
    QuantityRoundTrip("x", 2, " pending");
  }
}
