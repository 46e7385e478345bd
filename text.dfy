/**
 * Normalisation of aisle labels: the ASCII part of Python's `str.strip()`
 * and `str.lower()`, as the aisle handler applies them to the query
 * (`.strip().lower()`) and to every catalog aisle (`.lower()` only).
 */
module Text {

  /** The ASCII characters for which Python's `str.isspace()` holds. */
  predicate IsSpace(c: char) {
    c == ' ' || c == '\t' || c == '\n' || c == '\r'
    || c == '\U{000B}' || c == '\U{000C}'
    || ('\U{001C}' <= c <= '\U{001F}')
  }

  predicate IsUpper(c: char) {
    'A' <= c <= 'Z'
  }

  /** `str.lower()` on one character (ASCII letters only). */
  function LowerChar(c: char): (r: char)
    ensures !IsUpper(r)
    ensures IsSpace(r) <==> IsSpace(c)
    ensures IsUpper(c) ==> r as int == c as int + 32
    ensures !IsUpper(c) ==> r == c
  {
    if IsUpper(c) then (c as int + 32) as char else c
  }

  /** `str.lower()`: every character lowered, length and positions kept. */
  function Lower(s: string): (r: string)
    ensures |r| == |s|
    ensures forall i :: 0 <= i < |s| ==> r[i] == LowerChar(s[i])
  {
    seq(|s|, i requires 0 <= i < |s| => LowerChar(s[i]))
  }

  /** Leading whitespace removed: the longest suffix that does not start with a space. */
  function TrimLeft(s: string): (r: string)
    ensures |r| <= |s| && r == s[|s| - |r|..]
    ensures forall i :: 0 <= i < |s| - |r| ==> IsSpace(s[i])
    ensures r == [] || !IsSpace(r[0])
  {
    if s != [] && IsSpace(s[0]) then TrimLeft(s[1..]) else s
  }

  /** Trailing whitespace removed: the longest prefix that does not end with a space. */
  function TrimRight(s: string): (r: string)
    ensures |r| <= |s| && r == s[..|r|]
    ensures forall i :: |r| <= i < |s| ==> IsSpace(s[i])
    ensures r == [] || !IsSpace(r[|r| - 1])
  {
    if s != [] && IsSpace(s[|s| - 1]) then TrimRight(s[..|s| - 1]) else s
  }

  /** `str.strip()`: whitespace removed at both ends; what is left is empty
      or starts and ends with a non-whitespace character. */
  function Strip(s: string): (r: string)
    ensures |r| <= |s|
    ensures r == [] || (!IsSpace(r[0]) && !IsSpace(r[|r| - 1]))
  {
    var l := TrimLeft(s);
    var r := TrimRight(l);
    assert r != [] ==> r[0] == l[0];
    r
  }

  /** The aisle query as the handler compares it: `query.strip().lower()`.
      It holds no upper-case letter and no whitespace at either end. */
  function Normalize(query: string): (r: string)
    ensures |r| <= |query|
    ensures forall i :: 0 <= i < |r| ==> !IsUpper(r[i])
    ensures r == [] || (!IsSpace(r[0]) && !IsSpace(r[|r| - 1]))
  {
    LowerKeepsEnds(Strip(query));
    Lower(Strip(query))
  }

  /** Strip keeps one contiguous stretch of its input, starting where the
      leading whitespace ends. */
  lemma StripIsSlice(s: string)
    ensures var r, i := Strip(s), |s| - |TrimLeft(s)|;
      i + |r| <= |s| && r == s[i..i + |r|]
  {
    var l := TrimLeft(s);
    var r := TrimRight(l);
    SliceOfSuffix(s, |s| - |l|, |r|);
  }

  lemma SliceOfSuffix(s: string, i: nat, m: nat)
    requires i + m <= |s|
    ensures s[i..][..m] == s[i..i + m]
  {
  }

  /** Everything Strip drops is whitespace. */
  lemma StripDropsOnlySpace(s: string)
    ensures var r, i := Strip(s), |s| - |TrimLeft(s)|;
      && (forall k :: 0 <= k < i ==> IsSpace(s[k]))
      && (forall k :: i + |r| <= k < |s| ==> IsSpace(s[k]))
  {
    var l := TrimLeft(s);
    var r := TrimRight(l);
    var i := |s| - |l|;
    forall k | i + |r| <= k < |s| ensures IsSpace(s[k]) {
      assert s[k] == l[k - i];
    }
  }

  /** A string with no whitespace at either end is left alone by Strip. */
  lemma StripTrimmed(s: string)
    requires s == [] || (!IsSpace(s[0]) && !IsSpace(s[|s| - 1]))
    ensures Strip(s) == s
  {
  }

  /** Lowering never introduces or removes whitespace at the ends. */
  lemma LowerKeepsEnds(s: string)
    requires s == [] || (!IsSpace(s[0]) && !IsSpace(s[|s| - 1]))
    ensures var t := Lower(s); t == [] || (!IsSpace(t[0]) && !IsSpace(t[|t| - 1]))
  {
  }

  /** Lowering twice is lowering once. */
  lemma LowerIdempotent(s: string)
    ensures Lower(Lower(s)) == Lower(s)
  {
  }

  /** Normalising an already normalised aisle label changes nothing, so
      `" Cookies "` and `"cookies"` name the same aisle. */
  lemma NormalizeIdempotent(query: string)
    ensures Normalize(Normalize(query)) == Normalize(query)
  {
    var t := Strip(query);
    LowerKeepsEnds(t);
    StripTrimmed(Lower(t));
    LowerIdempotent(t);
  }
}
