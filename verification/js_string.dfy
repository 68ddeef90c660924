/**
 The few JavaScript string operations the model relies on: `trim`,
 `startsWith` and `includes`. Strings are sequences of Dafny characters
 (Unicode scalar values), where JavaScript uses UTF-16 code units.
 */
module JsString {

  /**
   The characters `String.prototype.trim` strips: ECMAScript's WhiteSpace
   (tab, vertical tab, form feed, space, no-break space, byte order mark and
   the space separators of the Unicode Zs category) and LineTerminator
   (line feed, carriage return, line and paragraph separators).
   */
  predicate IsWhitespace(c: char) {
    || c == '\t' || c == '\n' || c == '\U{0B}' || c == '\U{0C}' || c == '\r'
    || c == ' ' || c == '\U{A0}' || c == '\U{1680}'
    || ('\U{2000}' <= c <= '\U{200A}')
    || c == '\U{2028}' || c == '\U{2029}' || c == '\U{202F}' || c == '\U{205F}'
    || c == '\U{3000}' || c == '\U{FEFF}'
  }

  predicate AllWhitespace(s: string) {
    forall i | 0 <= i < |s| :: IsWhitespace(s[i])
  }

  /**
   Scanning forward from `from`: the index of the first character that is
   not whitespace, or `|s|` when there is none.
   */
  function LeadingEnd(s: string, from: nat): (r: nat)
    requires from <= |s|
    ensures from <= r <= |s|
    ensures forall k | from <= k < r :: IsWhitespace(s[k])
    ensures r < |s| ==> !IsWhitespace(s[r])
    decreases |s| - from
  {
    if from < |s| && IsWhitespace(s[from]) then LeadingEnd(s, from + 1) else from
  }

  /**
   Scanning backward from `before`: the index just past the last character
   before it that is not whitespace, or 0 when there is none.
   */
  function TrailingStart(s: string, before: nat): (r: nat)
    requires before <= |s|
    ensures r <= before
    ensures forall k | r <= k < before :: IsWhitespace(s[k])
    ensures r > 0 ==> !IsWhitespace(s[r - 1])
    decreases before
  {
    if before > 0 && IsWhitespace(s[before - 1]) then TrailingStart(s, before - 1) else before
  }

  /** Every character of `s` before `i` and from `j` on is whitespace: cutting them off is a trim of `s`. */
  predicate Strips(s: string, i: int, j: int) {
    && 0 <= i <= j <= |s|
    && (forall k | 0 <= k < i :: IsWhitespace(s[k]))
    && (forall k | j <= k < |s| :: IsWhitespace(s[k]))
  }

  /**
   `String.prototype.trim`: the slice of `s` left after cutting off its
   leading and trailing whitespace.
   */
  function Trim(s: string): (r: string)
    ensures exists i, j :: Strips(s, i, j) && r == s[i..j]
    ensures r == [] <==> AllWhitespace(s)
    ensures r != [] ==> !IsWhitespace(r[0]) && !IsWhitespace(r[|r| - 1])
  {
    var i := LeadingEnd(s, 0);
    if i == |s| then
      assert Strips(s, i, i);
      []
    else
      var j := TrailingStart(s, |s|);
      assert i < j;
      assert Strips(s, i, j);
      s[i..j]
  }

  /** Trimming is idempotent: a trimmed string is its own trim. */
  lemma TrimIdempotent(s: string)
    ensures Trim(Trim(s)) == Trim(s)
  {
    TrimFixed(Trim(s));
  }

  /** A string with no whitespace at either end is its own trim. */
  lemma TrimFixed(s: string)
    requires s == [] || (!IsWhitespace(s[0]) && !IsWhitespace(s[|s| - 1]))
    ensures Trim(s) == s
  {
    if s != [] {
      assert LeadingEnd(s, 0) == 0;
      assert TrailingStart(s, |s|) == |s|;
      assert s[0..|s|] == s;
    }
  }

  /** `s.startsWith(p)`: `p` occurs at the very start of `s`. */
  function StartsWith(s: string, p: string): (r: bool)
    ensures r <==> OccursAt(s, p, 0)
    ensures p == [] ==> r
  {
    |p| <= |s| && s[..|p|] == p
  }

  /** `sub` occurs in `s` starting at position `i`. */
  predicate OccursAt(s: string, sub: string, i: int) {
    0 <= i <= |s| - |sub| && s[i..i + |sub|] == sub
  }

  /** `s.includes(sub)`: a match at the start, or anywhere in the rest. */
  function Includes(s: string, sub: string): (r: bool)
    ensures r ==> |sub| <= |s|
    ensures StartsWith(s, sub) ==> r
    decreases |s|
  {
    StartsWith(s, sub) || (|s| > 0 && Includes(s[1..], sub))
  }

  /** `Includes` holds exactly when `sub` occurs somewhere in `s`. */
  lemma {:induction false} IncludesIff(s: string, sub: string)
    ensures Includes(s, sub) <==> exists i :: OccursAt(s, sub, i)
    decreases |s|
  {
    if |s| > 0 {
      IncludesIff(s[1..], sub);
      if exists i :: OccursAt(s, sub, i) {
        var i :| OccursAt(s, sub, i);
        if i > 0 {
          assert s[1..][i - 1..i - 1 + |sub|] == s[i..i + |sub|];
          assert OccursAt(s[1..], sub, i - 1);
        }
      }
      if Includes(s[1..], sub) {
        var i :| OccursAt(s[1..], sub, i);
        assert s[i + 1..i + 1 + |sub|] == s[1..][i..i + |sub|];
        assert OccursAt(s, sub, i + 1);
      }
      if StartsWith(s, sub) {
        assert OccursAt(s, sub, 0);
      }
    } else {
      if StartsWith(s, sub) {
        assert OccursAt(s, sub, 0);
      }
    }
  }
}
