/** The string operations the client relies on: `String.prototype.trim`,
    `toLowerCase` (restricted to ASCII letters), `includes` and `Array.prototype.join`. */
module Text {

  /** ECMAScript WhiteSpace and LineTerminator code points, the set `trim` strips:
      the listed ones and the spaces U+2000 to U+200A. */
  predicate IsWhitespace(c: char) {
    c in WhitespaceChars || ('\U{2000}' <= c <= '\U{200A}')
  }

  const WhitespaceChars: set<char> := {' ', '\t', '\n', '\r', '\U{000B}', '\U{000C}', '\U{00A0}', '\U{1680}',
    '\U{2028}', '\U{2029}', '\U{202F}', '\U{205F}', '\U{3000}', '\U{FEFF}'}

  predicate AllWhitespace(s: string) {
    forall k :: 0 <= k < |s| ==> IsWhitespace(s[k])
  }

  /** Neither end of `s` is whitespace. */
  predicate IsTrimmed(s: string) {
    |s| == 0 || (!IsWhitespace(s[0]) && !IsWhitespace(s[|s| - 1]))
  }

  /** The first position at or after `i` that is not leading whitespace. */
  function SkipLeading(s: string, i: nat): (j: nat)
    requires i <= |s|
    ensures i <= j <= |s|
    ensures forall k :: i <= k < j ==> IsWhitespace(s[k])
    ensures j == |s| || !IsWhitespace(s[j])
    decreases |s| - i
  {
    if i < |s| && IsWhitespace(s[i]) then SkipLeading(s, i + 1) else i
  }

  /** The end of `s[lo..hi]` once its trailing whitespace is dropped. */
  function SkipTrailing(s: string, lo: nat, hi: nat): (e: nat)
    requires lo <= hi <= |s|
    ensures lo <= e <= hi
    ensures forall k :: e <= k < hi ==> IsWhitespace(s[k])
    ensures e == lo || !IsWhitespace(s[e - 1])
  {
    if hi > lo && IsWhitespace(s[hi - 1]) then SkipTrailing(s, lo, hi - 1) else hi
  }

  /** `s.trim()`: the contiguous middle of `s` between its leading and trailing whitespace. */
  function Trim(s: string): (r: string)
    ensures IsTrimmed(r)
    ensures |r| <= |s|
  {
    var i := SkipLeading(s, 0);
    s[i..SkipTrailing(s, i, |s|)]
  }

  /** What `trim` removes is whitespace at the two ends and nothing else. */
  lemma TrimIsSlice(s: string)
    ensures exists i :: 0 <= i <= |s| - |Trim(s)| && Trim(s) == s[i..i + |Trim(s)|] &&
                        AllWhitespace(s[..i]) && AllWhitespace(s[i + |Trim(s)|..])
  {
    var i := SkipLeading(s, 0);
    var e := SkipTrailing(s, i, |s|);
    var head, tail := s[..i], s[e..];
    forall k | 0 <= k < |head| ensures IsWhitespace(head[k]) {
      assert head[k] == s[k];
    }
    forall k | 0 <= k < |tail| ensures IsWhitespace(tail[k]) {
      assert tail[k] == s[e + k];
    }
    assert Trim(s) == s[i..i + |Trim(s)|];
  }

  /** A string trims to empty exactly when it is all whitespace. */
  lemma TrimEmptyIff(s: string)
    ensures Trim(s) == "" <==> AllWhitespace(s)
  {
    var i := SkipLeading(s, 0);
    if i < |s| {
      assert SkipTrailing(s, i, |s|) > i;
    }
  }

  /** ASCII lower-casing of one character. */
  function LowerChar(c: char): char {
    if 'A' <= c <= 'Z' then (c as int + 32) as char else c
  }

  /** `s.toLowerCase()` restricted to ASCII letters. */
  function ToLower(s: string): (r: string)
    ensures |r| == |s|
    ensures forall k :: 0 <= k < |s| ==> r[k] == LowerChar(s[k])
  {
    seq(|s|, k requires 0 <= k < |s| => LowerChar(s[k]))
  }

  /** `q` occurs in `t` starting at position `i`. */
  predicate OccursAt(t: string, q: string, i: int) {
    0 <= i && i + |q| <= |t| && t[i..i + |q|] == q
  }

  /** `t.includes(q)`, by scanning start positions left to right. */
  function Includes(t: string, q: string): (b: bool)
    ensures b <==> exists i :: OccursAt(t, q, i)
  {
    if |q| <= |t| && t[..|q|] == q then
      assert OccursAt(t, q, 0);
      true
    else if |t| == 0 then
      false
    else
      var rest := Includes(t[1..], q);
      if rest then
        var i :| OccursAt(t[1..], q, i);
        assert t[1..][i..i + |q|] == t[i + 1..i + 1 + |q|];
        assert OccursAt(t, q, i + 1);
        true
      else
        forall i | OccursAt(t, q, i) ensures i >= 1 && OccursAt(t[1..], q, i - 1) {
          assert t[0..|q|] == t[..|q|];
          assert t[1..][i - 1..i - 1 + |q|] == t[i..i + |q|];
        }
        false
  }

  /** A string includes every piece of a concatenation it is built from. */
  lemma IncludesPiece(a: string, b: string, c: string)
    ensures Includes(a + b + c, b)
  {
    assert (a + b + c)[|a|..|a| + |b|] == b;
    assert OccursAt(a + b + c, b, |a|);
  }

  /** Lower-casing preserves an occurrence. */
  lemma IncludesToLower(t: string, q: string)
    requires Includes(t, q)
    ensures Includes(ToLower(t), ToLower(q))
  {
    var i :| OccursAt(t, q, i);
    assert ToLower(t)[i..i + |q|] == ToLower(q);
    assert OccursAt(ToLower(t), ToLower(q), i);
  }

  /** The combined length of the parts. */
  function TotalLength(parts: seq<string>): nat {
    if |parts| == 0 then 0 else |parts[0]| + TotalLength(parts[1..])
  }

  /** `parts.join(sep)`: the parts with one separator between each neighbouring pair. */
  function Join(sep: string, parts: seq<string>): (r: string)
    ensures |parts| > 0 ==> |r| == TotalLength(parts) + (|parts| - 1) * |sep|
    ensures |parts| > 0 ==> r[..|parts[0]|] == parts[0]
  {
    if |parts| == 0 then ""
    else if |parts| == 1 then parts[0]
    else parts[0] + sep + Join(sep, parts[1..])
  }

  /** Every part is a substring of the joined text. */
  lemma {:induction false} JoinIncludesPart(sep: string, parts: seq<string>, k: int)
    requires 0 <= k < |parts|
    ensures Includes(Join(sep, parts), parts[k])
  {
    if |parts| == 1 {
      IncludesPiece("", parts[0], "");
      assert "" + parts[0] + "" == parts[0];
    } else if k == 0 {
      IncludesPiece("", parts[0], sep + Join(sep, parts[1..]));
      assert "" + parts[0] + (sep + Join(sep, parts[1..])) == Join(sep, parts);
    } else {
      JoinIncludesPart(sep, parts[1..], k - 1);
      var j := Join(sep, parts[1..]);
      var i :| OccursAt(j, parts[k], i);
      var pre := parts[0] + sep;
      assert Join(sep, parts) == pre + j;
      assert (pre + j)[|pre| + i..|pre| + i + |parts[k]|] == j[i..i + |parts[k]|];
      assert OccursAt(Join(sep, parts), parts[k], |pre| + i);
    }
  }
}
