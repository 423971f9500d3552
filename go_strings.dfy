/**
 * The parts of Go's `strings` package that tag-name resolution and the
 * validation rules rely on. A Go string is read here as its sequence of runes
 * (Unicode scalar values), which is what `strings.TrimSpace` and
 * `strings.ContainsAny` work on.
 */
module GoStrings {

  /** `unicode.IsSpace`: the Latin-1 spaces and every other Unicode White_Space character. */
  predicate IsSpace(c: char) {
    || c == '\t' || c == '\n' || c == '\U{000B}' || c == '\U{000C}' || c == '\r' || c == ' '
    || c == '\U{0085}' || c == '\U{00A0}' || c == '\U{1680}'
    || ('\U{2000}' <= c <= '\U{200A}')
    || c == '\U{2028}' || c == '\U{2029}' || c == '\U{202F}' || c == '\U{205F}' || c == '\U{3000}'
  }

  ghost predicate AllSpace(s: string) {
    forall k :: 0 <= k < |s| ==> IsSpace(s[k])
  }

  /** Neither end of `s` is whitespace. */
  predicate Trimmed(s: string) {
    s == [] || (!IsSpace(s[0]) && !IsSpace(s[|s| - 1]))
  }

  /** Trimming `s` keeps exactly `s[i..j]`: only whitespace is cut on either side, and what is kept is trimmed. */
  ghost predicate IsTrimmedSlice(s: string, i: int, j: int) {
    && 0 <= i <= j <= |s|
    && (forall k :: 0 <= k < i ==> IsSpace(s[k]))
    && (forall k :: j <= k < |s| ==> IsSpace(s[k]))
    && (i < j ==> !IsSpace(s[i]) && !IsSpace(s[j - 1]))
  }

  /** `r` is `s` with its leading and trailing whitespace removed. */
  ghost predicate TrimsTo(s: string, r: string) {
    exists i, j :: IsTrimmedSlice(s, i, j) && r == s[i..j]
  }

  /** `r` is the first element of `strings.Split(s, string(sep))`: the prefix of `s` up to its first `sep`. */
  ghost predicate IsFirstField(s: string, sep: char, r: string) {
    r <= s && sep !in r && (|r| < |s| ==> s[|r|] == sep)
  }

  /** `strings.Split(s, string(sep))[0]`; for the empty string Split returns `[""]`. */
  function FirstField(s: string, sep: char): (r: string)
    ensures IsFirstField(s, sep, r)
  {
    if s == [] || s[0] == sep then [] else [s[0]] + FirstField(s[1..], sep)
  }

  /** The first field is the only prefix that is free of `sep` and ends at a `sep` or at the end. */
  lemma FirstFieldUnique(s: string, sep: char, r: string)
    requires IsFirstField(s, sep, r)
    ensures r == FirstField(s, sep)
  {
    var f := FirstField(s, sep);
    assert |r| == |f|;
  }

  /** The number of whitespace runes `s` starts with. */
  function LeadingSpace(s: string): (n: nat)
    ensures n <= |s|
    ensures forall k :: 0 <= k < n ==> IsSpace(s[k])
    ensures n < |s| ==> !IsSpace(s[n])
  {
    if s != [] && IsSpace(s[0]) then 1 + LeadingSpace(s[1..]) else 0
  }

  /** The number of whitespace runes `s` ends with. */
  function TrailingSpace(s: string): (n: nat)
    ensures n <= |s|
    ensures forall k :: |s| - n <= k < |s| ==> IsSpace(s[k])
    ensures n < |s| ==> !IsSpace(s[|s| - 1 - n])
  {
    if s != [] && IsSpace(s[|s| - 1]) then 1 + TrailingSpace(s[..|s| - 1]) else 0
  }

  /** `strings.TrimSpace`: the runes between the leading and the trailing whitespace. */
  function TrimSpace(s: string): (r: string)
    ensures Trimmed(r)
    ensures TrimsTo(s, r)
  {
    var i := LeadingSpace(s);
    var j := i + (|s[i..]| - TrailingSpace(s[i..]));
    assert IsTrimmedSlice(s, i, j) by {
      forall k | j <= k < |s| ensures IsSpace(s[k]) {
        assert s[k] == s[i..][k - i];
      }
      if i < j {
        assert s[j - 1] == s[i..][|s[i..]| - 1 - TrailingSpace(s[i..])];
      }
    }
    s[i..j]
  }

  /** However trimming is read, it keeps the same runes. */
  lemma TrimmedSliceUnique(s: string, i1: int, j1: int, i2: int, j2: int)
    requires IsTrimmedSlice(s, i1, j1) && IsTrimmedSlice(s, i2, j2)
    ensures s[i1..j1] == s[i2..j2]
  {
    if i1 < j1 || i2 < j2 {
      assert i1 == i2 && j1 == j2;
    }
  }

  /** `TrimSpace` returns exactly the trimming of its argument, and nothing else is one. */
  lemma TrimSpaceCharacterized(s: string, r: string)
    ensures TrimsTo(s, r) <==> r == TrimSpace(s)
  {
    if TrimsTo(s, r) {
      var i1, j1 :| IsTrimmedSlice(s, i1, j1) && r == s[i1..j1];
      var i2, j2 :| IsTrimmedSlice(s, i2, j2) && TrimSpace(s) == s[i2..j2];
      TrimmedSliceUnique(s, i1, j1, i2, j2);
    }
  }

  /** A string of whitespace only trims to the empty string. */
  lemma TrimSpaceOfBlank(s: string)
    requires AllSpace(s)
    ensures TrimSpace(s) == ""
  {
    var i, j :| IsTrimmedSlice(s, i, j) && TrimSpace(s) == s[i..j];
    assert IsTrimmedSlice(s, i, j);
  }

  /** `strings.ContainsAny(s, chars)`: some rune of `s` is one of `chars`. */
  predicate ContainsAny(s: string, chars: string) {
    exists c :: c in s && c in chars
  }

  /** `ContainsAny` holds exactly when some position of `s` holds a rune found at some position of `chars`. */
  lemma ContainsAnyAt(s: string, chars: string)
    ensures ContainsAny(s, chars) <==> exists i, j :: 0 <= i < |s| && 0 <= j < |chars| && s[i] == chars[j]
  {
    if ContainsAny(s, chars) {
      var c :| c in s && c in chars;
      var i :| 0 <= i < |s| && s[i] == c;
      var j :| 0 <= j < |chars| && chars[j] == c;
    }
    if exists i, j :: 0 <= i < |s| && 0 <= j < |chars| && s[i] == chars[j] {
      var i, j :| 0 <= i < |s| && 0 <= j < |chars| && s[i] == chars[j];
      assert s[i] in s && s[i] in chars;
    }
  }
}
