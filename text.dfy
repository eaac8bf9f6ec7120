/**
 * The string operations the points rules are built from: the regular-expression count
 * of `[a-zA-Z0-9]`, `String.prototype.trim`, `.length` (UTF-16 code units),
 * `endsWith` and `split` with a one-character separator.
 */
module Text {

  /** The character class `[a-zA-Z0-9]`. */
  predicate IsAsciiAlnum(c: char) {
    ('a' <= c <= 'z') || ('A' <= c <= 'Z') || ('0' <= c <= '9')
  }

  /** Number of matches of `/[a-zA-Z0-9]/g` in `s` (0 when there is no match at all). */
  function AlnumCount(s: string): (n: nat)
    ensures n <= |s|
  {
    if |s| == 0 then 0
    else AlnumCount(s[..|s| - 1]) + (if IsAsciiAlnum(s[|s| - 1]) then 1 else 0)
  }

  /** No match at all counts 0, and only then; every character matching counts `|s|`, and only then. */
  lemma {:induction false} AlnumCountExtremes(s: string)
    ensures AlnumCount(s) == 0 <==> forall i :: 0 <= i < |s| ==> !IsAsciiAlnum(s[i])
    ensures AlnumCount(s) == |s| <==> forall i :: 0 <= i < |s| ==> IsAsciiAlnum(s[i])
  {
    if |s| > 0 {
      var init := s[..|s| - 1];
      AlnumCountExtremes(init);
      assert forall i :: 0 <= i < |init| ==> init[i] == s[i];
    }
  }

  /** The positions of `s` that the character class matches. */
  function AlnumPositions(s: string): set<nat> {
    set i: nat | i < |s| && IsAsciiAlnum(s[i])
  }

  /** The count is exactly the number of matching positions. */
  lemma {:induction false} AlnumCountIsMatchCount(s: string)
    ensures AlnumCount(s) == |AlnumPositions(s)|
  {
    if |s| > 0 {
      var init := s[..|s| - 1];
      AlnumCountIsMatchCount(init);
      var last: nat := |s| - 1;
      assert last !in AlnumPositions(init);
      if IsAsciiAlnum(s[last]) {
        assert AlnumPositions(s) == AlnumPositions(init) + {last};
      } else {
        assert AlnumPositions(s) == AlnumPositions(init);
      }
    }
  }

  /** Counting distributes over concatenation. */
  lemma {:induction false} AlnumCountConcat(a: string, b: string)
    ensures AlnumCount(a + b) == AlnumCount(a) + AlnumCount(b)
  {
    if |b| == 0 {
      assert a + b == a;
    } else {
      assert (a + b)[..|a + b| - 1] == a + b[..|b| - 1];
      AlnumCountConcat(a, b[..|b| - 1]);
    }
  }

  /**
   * The characters `trim` removes: ECMAScript WhiteSpace (TAB, VT, FF, SPACE, NBSP,
   * ZWNBSP and the Unicode space separators) and LineTerminator (LF, CR, LS, PS).
   */
  const JsWhitespace: set<char> := {
    '\t', '\n', '\U{000B}', '\U{000C}', '\r', ' ', '\U{00A0}', '\U{1680}',
    '\U{2000}', '\U{2001}', '\U{2002}', '\U{2003}', '\U{2004}', '\U{2005}',
    '\U{2006}', '\U{2007}', '\U{2008}', '\U{2009}', '\U{200A}',
    '\U{2028}', '\U{2029}', '\U{202F}', '\U{205F}', '\U{3000}', '\U{FEFF}'
  }

  predicate IsJsWhitespace(c: char) {
    c in JsWhitespace
  }

  /** `s` without its leading whitespace. */
  function TrimStart(s: string): string {
    if |s| > 0 && IsJsWhitespace(s[0]) then TrimStart(s[1..]) else s
  }

  /** `s` without its trailing whitespace. */
  function TrimEnd(s: string): string {
    if |s| > 0 && IsJsWhitespace(s[|s| - 1]) then TrimEnd(s[..|s| - 1]) else s
  }

  /** `TrimStart` drops a whitespace prefix and stops at the first other character. */
  lemma {:induction false} TrimStartShape(s: string)
    ensures var r := TrimStart(s);
      && |r| <= |s| && r == s[|s| - |r|..]
      && (forall i :: 0 <= i < |s| - |r| ==> IsJsWhitespace(s[i]))
      && (|r| > 0 ==> !IsJsWhitespace(r[0]))
  {
    if |s| > 0 && IsJsWhitespace(s[0]) {
      TrimStartShape(s[1..]);
    }
  }

  /** `TrimEnd` drops a whitespace suffix and stops at the last other character. */
  lemma {:induction false} TrimEndShape(s: string)
    ensures var r := TrimEnd(s);
      && |r| <= |s| && r == s[..|r|]
      && (forall i :: |r| <= i < |s| ==> IsJsWhitespace(s[i]))
      && (|r| > 0 ==> !IsJsWhitespace(r[|r| - 1]))
  {
    if |s| > 0 && IsJsWhitespace(s[|s| - 1]) {
      TrimEndShape(s[..|s| - 1]);
    }
  }

  /**
   * `s[lo..hi]` is what trimming `s` leaves: everything outside it is whitespace and,
   * unless it is empty, it neither starts nor ends with whitespace.
   */
  ghost predicate TrimmedSlice(s: string, lo: int, hi: int) {
    && 0 <= lo <= hi <= |s|
    && (forall i :: 0 <= i < lo ==> IsJsWhitespace(s[i]))
    && (forall i :: hi <= i < |s| ==> IsJsWhitespace(s[i]))
    && (lo < hi ==> !IsJsWhitespace(s[lo]) && !IsJsWhitespace(s[hi - 1]))
  }

  /** `String.prototype.trim`. */
  function Trim(s: string): string {
    TrimEnd(TrimStart(s))
  }

  /** `Trim` keeps a slice of the trimmed shape. */
  lemma TrimBounds(s: string) returns (lo: int, hi: int)
    ensures TrimmedSlice(s, lo, hi) && Trim(s) == s[lo..hi]
  {
    var t := TrimStart(s);
    var r := TrimEnd(t);
    TrimStartShape(s);
    TrimEndShape(t);
    lo, hi := |s| - |t|, |s| - |t| + |r|;
    assert s[lo..hi] == t[..|r|];
    forall i | hi <= i < |s| ensures IsJsWhitespace(s[i]) {
      assert s[i] == t[i - lo];
    }
  }

  /** Only one slice of `s` has the trimmed shape, so `Trim` is fully determined by it. */
  lemma TrimUnique(s: string, lo: int, hi: int)
    requires TrimmedSlice(s, lo, hi)
    ensures Trim(s) == s[lo..hi]
  {
    var lo2, hi2 := TrimBounds(s);
    assert 0 <= lo2 <= hi2 <= |s|;
    if lo < hi && lo2 < hi2 {
      assert !IsJsWhitespace(s[lo]) && !IsJsWhitespace(s[lo2]);
      assert lo == lo2;
      assert !IsJsWhitespace(s[hi - 1]) && !IsJsWhitespace(s[hi2 - 1]);
      assert hi == hi2;
    }
  }

  /** Whitespace around a text with non-whitespace ends is exactly what `trim` removes. */
  lemma TrimPadded(pre: string, core: string, post: string)
    requires forall i :: 0 <= i < |pre| ==> IsJsWhitespace(pre[i])
    requires forall i :: 0 <= i < |post| ==> IsJsWhitespace(post[i])
    requires |core| > 0 && !IsJsWhitespace(core[0]) && !IsJsWhitespace(core[|core| - 1])
    ensures Trim(pre + core + post) == core
  {
    var s := pre + core + post;
    assert s[|pre|..|pre| + |core|] == core;
    assert TrimmedSlice(s, |pre|, |pre| + |core|);
    TrimUnique(s, |pre|, |pre| + |core|);
  }

  /** A text with no whitespace at either end is its own trim. */
  lemma TrimOfTrimmed(s: string)
    requires |s| > 0 ==> !IsJsWhitespace(s[0]) && !IsJsWhitespace(s[|s| - 1])
    ensures Trim(s) == s
  {
    assert TrimmedSlice(s, 0, |s|);
    TrimUnique(s, 0, |s|);
  }

  /** Trimming twice is trimming once. */
  lemma TrimIdempotent(s: string)
    ensures Trim(Trim(s)) == Trim(s)
  {
    var t := Trim(s);
    var lo, hi := TrimBounds(s);
    assert TrimmedSlice(t, 0, |t|);
    TrimUnique(t, 0, |t|);
  }

  /** The number of UTF-16 code units that encode `c`. */
  function CodeUnits(c: char): nat {
    if c as int > 0xFFFF then 2 else 1
  }

  /** JavaScript's `.length`: the number of UTF-16 code units of `s`. */
  function Utf16Length(s: string): (n: nat)
    ensures |s| <= n <= 2 * |s|
    ensures n == |s| <==> forall i :: 0 <= i < |s| ==> s[i] as int <= 0xFFFF
  {
    if |s| == 0 then 0 else Utf16Length(s[..|s| - 1]) + CodeUnits(s[|s| - 1])
  }

  /** `s.endsWith(suffix)`. */
  predicate EndsWith(s: string, suffix: string) {
    |suffix| <= |s| && s[|s| - |suffix|..] == suffix
  }

  /** Position of the first occurrence of `c` in `s`. */
  function FirstIndex(s: string, c: char): (i: nat)
    requires c in s
    ensures i < |s| && s[i] == c && c !in s[..i]
  {
    if s[0] == c then 0 else FirstIndex(s[1..], c) + 1
  }

  /**
   * `s.split(sep)` for a one-character separator: the maximal separator-free runs
   * between occurrences of `sep`, so there is always at least one field.
   */
  function Split(s: string, sep: char): (fields: seq<string>)
    ensures |fields| >= 1
    ensures forall k :: 0 <= k < |fields| ==> sep !in fields[k]
    decreases |s|
  {
    if sep in s then
      var i := FirstIndex(s, sep);
      [s[..i]] + Split(s[i + 1..], sep)
    else [s]
  }

  /** `fields.join(sep)`: the inverse of `Split`. */
  function Join(fields: seq<string>, sep: char): string
    requires |fields| >= 1
  {
    if |fields| == 1 then fields[0] else fields[0] + [sep] + Join(fields[1..], sep)
  }

  /** Joining the fields back together gives the original text. */
  lemma {:induction false} JoinSplit(s: string, sep: char)
    ensures Join(Split(s, sep), sep) == s
    decreases |s|
  {
    if sep in s {
      var i := FirstIndex(s, sep);
      var rest := Split(s[i + 1..], sep);
      JoinSplit(s[i + 1..], sep);
      assert ([s[..i]] + rest)[1..] == rest;
      assert s == s[..i] + [sep] + s[i + 1..];
    }
  }

  /** A separator that follows a separator-free prefix ends the first field. */
  lemma SplitAtSeparator(a: string, b: string, sep: char)
    requires sep !in a
    ensures Split(a + [sep] + b, sep) == [a] + Split(b, sep)
  {
    var s := a + [sep] + b;
    assert s[|a|] == sep;
    var i := FirstIndex(s, sep);
    assert s[..i] == a && s[i + 1..] == b;
  }

  /** Splitting joined separator-free fields gives back the fields. */
  lemma {:induction false} SplitJoin(fields: seq<string>, sep: char)
    requires |fields| >= 1
    requires forall k :: 0 <= k < |fields| ==> sep !in fields[k]
    ensures Split(Join(fields, sep), sep) == fields
  {
    if |fields| == 1 {
      assert Split(fields[0], sep) == [fields[0]];
    } else {
      SplitJoin(fields[1..], sep);
      SplitAtSeparator(fields[0], Join(fields[1..], sep), sep);
    }
  }
}
