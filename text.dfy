/**
 * String helpers with Python's meaning: whitespace as `str.isspace()` and the
 * regex class `\s` see it, `str.strip()`, `str.split(sep)`, `str.replace`,
 * `in` on strings, ASCII `\d`, `int()` of a digit string and `str()` of a
 * natural number, and Python's ordering of strings.
 */
module Text {

  /** The characters Python's `str.isspace()` and the `\s` class of a `str` pattern accept. */
  predicate IsSpace(c: char) {
    c == ' ' || c == '\t' || c == '\n' || c == '\r' || c == '\U{0B}' || c == '\U{0C}'
    || ('\U{1C}' <= c <= '\U{1F}') || c == '\U{85}' || c == '\U{A0}' || c == '\U{1680}'
    || ('\U{2000}' <= c <= '\U{200A}') || c == '\U{2028}' || c == '\U{2029}'
    || c == '\U{202F}' || c == '\U{205F}' || c == '\U{3000}'
  }

  /** The model's `\d`: the ASCII digits only. */
  predicate IsDigit(c: char) {
    '0' <= c <= '9'
  }

  predicate AllSpaces(s: string) {
    forall i | 0 <= i < |s| :: IsSpace(s[i])
  }

  predicate AllDigits(s: string) {
    forall i | 0 <= i < |s| :: IsDigit(s[i])
  }

  /** Index of the first character of `s` that is not whitespace. */
  function LeadingSpaces(s: string): (i: nat)
    ensures i <= |s|
    ensures AllSpaces(s[..i])
    ensures i == |s| || !IsSpace(s[i])
  {
    if s == [] || !IsSpace(s[0]) then 0
    else
      var k := LeadingSpaces(s[1..]);
      assert s[..k + 1] == [s[0]] + s[1..][..k];
      k + 1
  }

  /** Index just past the last character of `s` that is not whitespace. */
  function TrailingEnd(s: string): (j: nat)
    ensures j <= |s|
    ensures AllSpaces(s[j..])
    ensures j == 0 || !IsSpace(s[j - 1])
  {
    if s == [] || !IsSpace(s[|s| - 1]) then |s|
    else
      var k := TrailingEnd(s[..|s| - 1]);
      assert s[k..] == s[..|s| - 1][k..] + [s[|s| - 1]];
      k
  }

  /** Python's `s.strip()`. */
  function Strip(s: string): (r: string)
  {
    var i := LeadingSpaces(s);
    s[i..][..TrailingEnd(s[i..])]
  }

  /** Stripping leaves a piece of the input with no whitespace at either end, and only whitespace was removed. */
  lemma StripIsTrimmedSlice(s: string)
    ensures exists i, j :: 0 <= i <= j <= |s| && Strip(s) == s[i..j] && AllSpaces(s[..i]) && AllSpaces(s[j..])
    ensures Strip(s) == [] || (!IsSpace(Strip(s)[0]) && !IsSpace(Strip(s)[|Strip(s)| - 1]))
  {
    var i := LeadingSpaces(s);
    var t := s[i..];
    var j := TrailingEnd(t);
    assert Strip(s) == s[i..i + j];
    assert s[i + j..] == t[j..];
    if j > 0 {
      assert Strip(s)[0] == s[i];
    }
  }

  /** A string with no whitespace at either end is its own strip. */
  lemma StripNoOp(s: string)
    requires s == [] || (!IsSpace(s[0]) && !IsSpace(s[|s| - 1]))
    ensures Strip(s) == s
  {
    assert LeadingSpaces(s) == 0;
    assert s[0..] == s;
  }

  lemma StripIdempotent(s: string)
    ensures Strip(Strip(s)) == Strip(s)
  {
    StripIsTrimmedSlice(s);
    StripNoOp(Strip(s));
  }

  /** Stripping never introduces a character. */
  lemma StripKeepsAbsent(s: string, c: char)
    requires !HasChar(s, c)
    ensures !HasChar(Strip(s), c)
  {
    StripIsTrimmedSlice(s);
    var i, j :| 0 <= i <= j <= |s| && Strip(s) == s[i..j];
    forall p | 0 <= p < j - i ensures Strip(s)[p] != c {
      assert Strip(s)[p] == s[i + p];
    }
  }

  function LowerChar(c: char): char {
    if 'A' <= c <= 'Z' then (c as int + 32) as char else c
  }

  /** Python's `s.lower()`, restricted to ASCII letters. */
  function Lower(s: string): (r: string)
    ensures |r| == |s|
  {
    if s == [] then [] else [LowerChar(s[0])] + Lower(s[1..])
  }

  lemma {:induction false} LowerPointwise(s: string)
    ensures forall i | 0 <= i < |s| :: Lower(s)[i] == LowerChar(s[i])
  {
    if s != [] {
      LowerPointwise(s[1..]);
    }
  }

  /** Python's `p in s` for strings. */
  predicate Contains(s: string, p: string)
    decreases |s|
  {
    if p <= s then true
    else if s == [] then false
    else Contains(s[1..], p)
  }

  /** `p` occurs in `s` starting at index `i`. */
  predicate OccursAt(s: string, p: string, i: int) {
    0 <= i <= |s| - |p| && s[i..i + |p|] == p
  }

  /** `Contains` means what it says: `p` occurs at some position of `s`. */
  lemma {:induction false} ContainsIsOccurrence(s: string, p: string)
    ensures Contains(s, p) <==> exists i :: OccursAt(s, p, i)
    decreases |s|
  {
    if p <= s {
      assert OccursAt(s, p, 0);
    } else if s == [] {
    } else {
      ContainsIsOccurrence(s[1..], p);
      if exists i :: OccursAt(s, p, i) {
        var i :| OccursAt(s, p, i);
        assert i != 0;
        OccursAtTail(s, p, i - 1);
      }
      if exists i :: OccursAt(s[1..], p, i) {
        var i :| OccursAt(s[1..], p, i);
        OccursAtTail(s, p, i);
      }
    }
  }

  /** An occurrence one position further into `s` is an occurrence in its tail. */
  lemma OccursAtTail(s: string, p: string, i: nat)
    requires s != []
    ensures OccursAt(s, p, i + 1) <==> OccursAt(s[1..], p, i)
  {
    if i + |p| <= |s[1..]| {
      var here := s[i + 1..i + 1 + |p|];
      var there := s[1..][i..i + |p|];
      forall k | 0 <= k < |p| ensures here[k] == there[k] {
        assert there[k] == s[1..][i + k] == s[i + 1 + k];
      }
      assert here == there;
    }
  }

  /** A single character occurs in `s`. */
  predicate HasChar(s: string, c: char) {
    exists i | 0 <= i < |s| :: s[i] == c
  }

  /** Python's `s.startswith(p)`. */
  predicate StartsWith(s: string, p: string) {
    p <= s
  }

  /** Python's `s.split(sep)` for a one-character separator. */
  function Split(s: string, sep: char): (parts: seq<string>)
    ensures |parts| >= 1
    ensures forall k | 0 <= k < |parts| :: !HasChar(parts[k], sep)
    decreases |s|
  {
    if s == [] then [[]]
    else
      var rest := Split(s[1..], sep);
      if s[0] == sep then [[]] + rest
      else [[s[0]] + rest[0]] + rest[1..]
  }

  /** Python's `sep.join(parts)`. */
  function Join(sep: string, parts: seq<string>): string {
    if parts == [] then []
    else if |parts| == 1 then parts[0]
    else parts[0] + sep + Join(sep, parts[1..])
  }

  /** The parts of `split` joined by the separator give the text back: no character is lost or added. */
  lemma {:induction false} SplitJoin(s: string, sep: char)
    ensures Join([sep], Split(s, sep)) == s
    decreases |s|
  {
    if s != [] {
      var rest := Split(s[1..], sep);
      SplitJoin(s[1..], sep);
      if s[0] == sep {
        assert Split(s, sep) == [[]] + rest;
        assert ([[]] + rest)[1..] == rest;
        assert Join([sep], Split(s, sep)) == [] + [sep] + Join([sep], rest);
        assert s == [s[0]] + s[1..];
      } else {
        var parts := Split(s, sep);
        assert parts == [[s[0]] + rest[0]] + rest[1..];
        if |rest| == 1 {
          assert Join([sep], parts) == [s[0]] + rest[0];
          assert Join([sep], rest) == rest[0];
        } else {
          assert parts[1..] == rest[1..];
          assert Join([sep], parts) == ([s[0]] + rest[0]) + [sep] + Join([sep], rest[1..]);
          assert Join([sep], rest) == rest[0] + [sep] + Join([sep], rest[1..]);
        }
        assert s == [s[0]] + s[1..];
      }
    }
  }

  /** Joining parts free of the separator and splitting again gives the parts back. */
  lemma {:induction false} JoinSplit(parts: seq<string>, sep: char)
    requires |parts| >= 1
    requires forall k | 0 <= k < |parts| :: !HasChar(parts[k], sep)
    ensures Split(Join([sep], parts), sep) == parts
    decreases |parts|, |parts[0]|
  {
    var p := parts[0];
    if p == [] {
      if |parts| > 1 {
        var rest := parts[1..];
        JoinSplit(rest, sep);
        assert Join([sep], parts) == [] + [sep] + Join([sep], rest);
        assert (([sep] + Join([sep], rest)))[1..] == Join([sep], rest);
      }
    } else {
      assert p[0] != sep;
      var shorter := [p[1..]] + parts[1..];
      assert !HasChar(p[1..], sep) by {
        forall i | 0 <= i < |p[1..]| ensures p[1..][i] != sep {
          assert p[1..][i] == p[i + 1];
        }
      }
      forall k | 0 <= k < |shorter| ensures !HasChar(shorter[k], sep) {
        if k > 0 {
          assert shorter[k] == parts[k];
        }
      }
      JoinSplit(shorter, sep);
      assert shorter[1..] == parts[1..];
      var j := Join([sep], parts);
      if |parts| == 1 {
        assert j == p;
        assert Join([sep], shorter) == p[1..];
      } else {
        assert j == p + [sep] + Join([sep], parts[1..]);
        assert Join([sep], shorter) == p[1..] + [sep] + Join([sep], parts[1..]);
      }
      assert j == [p[0]] + Join([sep], shorter);
      assert j[1..] == Join([sep], shorter);
      assert p == [p[0]] + p[1..];
    }
  }

  /**
   * `re.split('[...]+', s)` with a class of one-character delimiters, except
   * that a run of delimiters yields empty pieces between its characters.
   * Callers that strip the pieces and drop the empty ones (as every caller
   * here does) get the same result either way.
   */
  function SplitAny(s: string, delims: set<char>): (parts: seq<string>)
    ensures |parts| >= 1
    decreases |s|
  {
    if s == [] then [[]]
    else
      var rest := SplitAny(s[1..], delims);
      if s[0] in delims then [[]] + rest
      else [[s[0]] + rest[0]] + rest[1..]
  }

  /** `[p.strip() for p in parts if p.strip()]`: the stripped pieces, empty ones dropped. */
  function KeepStripped(ss: seq<string>): (r: seq<string>)
    ensures |r| <= |ss|
  {
    if ss == [] then []
    else
      var s := Strip(ss[0]);
      (if s == [] then [] else [s]) + KeepStripped(ss[1..])
  }

  /** Every kept piece is non-empty and already stripped. */
  lemma {:induction false} KeepStrippedClean(ss: seq<string>)
    ensures forall k | 0 <= k < |KeepStripped(ss)| :: KeepStripped(ss)[k] != [] && Strip(KeepStripped(ss)[k]) == KeepStripped(ss)[k]
  {
    if ss != [] {
      KeepStrippedClean(ss[1..]);
      StripIdempotent(ss[0]);
    }
  }

  /** Python's `s.replace(c, r)` for a one-character pattern. */
  function ReplaceChar(s: string, c: char, r: string): (t: string)
    ensures !HasChar(r, c) ==> !HasChar(t, c)
  {
    if s == [] then []
    else (if s[0] == c then r else [s[0]]) + ReplaceChar(s[1..], c, r)
  }

  /** Replacing distributes over concatenation. */
  lemma {:induction false} ReplaceCharAppend(a: string, b: string, c: char, r: string)
    ensures ReplaceChar(a + b, c, r) == ReplaceChar(a, c, r) + ReplaceChar(b, c, r)
  {
    if a == [] {
      assert a + b == b;
    } else {
      var head := if a[0] == c then r else [a[0]];
      var ab := a + b;
      assert ab[0] == a[0] && ab[1..] == a[1..] + b;
      ReplaceCharAppend(a[1..], b, c, r);
      calc {
        ReplaceChar(ab, c, r);
        head + ReplaceChar(a[1..] + b, c, r);
        head + (ReplaceChar(a[1..], c, r) + ReplaceChar(b, c, r));
        (head + ReplaceChar(a[1..], c, r)) + ReplaceChar(b, c, r);
        ReplaceChar(a, c, r) + ReplaceChar(b, c, r);
      }
    }
  }

  /** On one character: the pattern becomes the replacement, any other character stays. */
  lemma ReplaceCharSingle(d: char, c: char, r: string)
    ensures ReplaceChar([d], c, r) == if d == c then r else [d]
  {
  }

  /** A text without the pattern is left unchanged. */
  lemma {:induction false} ReplaceCharAbsent(s: string, c: char, r: string)
    requires !HasChar(s, c)
    ensures ReplaceChar(s, c, r) == s
  {
    if s != [] {
      assert s[0] != c;
      assert !HasChar(s[1..], c) by {
        forall i | 0 <= i < |s[1..]| ensures s[1..][i] != c {
          assert s[1..][i] == s[i + 1];
        }
      }
      ReplaceCharAbsent(s[1..], c, r);
      assert s == [s[0]] + s[1..];
    }
  }

  /** Python's `s.replace(p, '')`: every occurrence of `p`, scanned left to right, is removed. */
  function RemoveAll(s: string, p: string): (t: string)
    ensures |t| <= |s|
    decreases |s|
  {
    if p == [] || |s| < |p| then s
    else if p <= s then RemoveAll(s[|p|..], p)
    else [s[0]] + RemoveAll(s[1..], p)
  }

  /** `p` removed from the front of a string that starts with it and has no other occurrence. */
  lemma {:induction false} RemoveAllPrefix(p: string, rest: string)
    requires p != []
    requires !Contains(rest, p)
    ensures RemoveAll(p + rest, p) == rest
  {
    assert p <= p + rest;
    assert (p + rest)[|p|..] == rest;
    RemoveAllAbsent(rest, p);
  }

  /** Removing a pattern that does not occur changes nothing. */
  lemma {:induction false} RemoveAllAbsent(s: string, p: string)
    requires p != []
    requires !Contains(s, p)
    ensures RemoveAll(s, p) == s
    decreases |s|
  {
    if |s| < |p| {
    } else {
      assert !(p <= s);
      assert s != [];
      RemoveAllAbsent(s[1..], p);
      assert [s[0]] + s[1..] == s;
    }
  }

  function DigitValue(c: char): nat
    requires IsDigit(c)
  {
    c as int - '0' as int
  }

  /** Python's `int(ds)` for a string of ASCII digits. */
  function DigitsValue(ds: string): nat
    requires AllDigits(ds)
  {
    if ds == [] then 0 else DigitsValue(ds[..|ds| - 1]) * 10 + DigitValue(ds[|ds| - 1])
  }

  /** Python's `str(n)` for a natural number. */
  function NatToString(n: nat): (s: string)
    ensures s != [] && AllDigits(s)
  {
    if n < 10 then [('0' as int + n) as char]
    else NatToString(n / 10) + [('0' as int + n % 10) as char]
  }

  /** Reading back a printed number gives the number. */
  lemma {:induction false} NatToStringRoundTrip(n: nat)
    ensures DigitsValue(NatToString(n)) == n
  {
    var s := NatToString(n);
    if n >= 10 {
      NatToStringRoundTrip(n / 10);
      assert s[..|s| - 1] == NatToString(n / 10);
    }
  }

  /** Python's `a < b` on strings: code point by code point, a proper prefix first. */
  predicate Below(a: string, b: string)
    decreases |a|
  {
    if a == [] then b != []
    else if b == [] then false
    else if a[0] != b[0] then a[0] < b[0]
    else Below(a[1..], b[1..])
  }

  lemma {:induction false} BelowIrreflexive(a: string)
    ensures !Below(a, a)
    decreases |a|
  {
    if a != [] {
      BelowIrreflexive(a[1..]);
    }
  }

  lemma {:induction false} BelowTransitive(a: string, b: string, c: string)
    requires Below(a, b) && Below(b, c)
    ensures Below(a, c)
    decreases |a|
  {
    if a != [] && b != [] && c != [] && a[0] == b[0] && b[0] == c[0] {
      BelowTransitive(a[1..], b[1..], c[1..]);
    }
  }

  lemma {:induction false} BelowTotal(a: string, b: string)
    ensures a == b || Below(a, b) || Below(b, a)
    decreases |a|
  {
    if a != [] && b != [] && a[0] == b[0] {
      BelowTotal(a[1..], b[1..]);
      if a[1..] == b[1..] {
        assert a == [a[0]] + a[1..] && b == [b[0]] + b[1..];
      }
    }
  }
}
