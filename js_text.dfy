/**
 * The JavaScript string primitives the server relies on: `undefined`-or-string
 * values, the truthiness of a string, `String.prototype.trim` and
 * `String.prototype.substr`. Characters are Unicode scalar values.
 */
module JsText {

  /** A JavaScript value that is either present or `undefined`. */
  datatype Option<T> = None | Some(value: T)

  /** The code points ECMAScript classes as WhiteSpace or LineTerminator:
      exactly the ones `trim` removes. */
  predicate IsWhitespace(c: char)
  {
    || c == '\t' || c == '\n' || c == '\U{000B}' || c == '\U{000C}' || c == '\r'
    || c == ' ' || c == '\U{00A0}' || c == '\U{1680}'
    || ('\U{2000}' <= c <= '\U{200A}')
    || c == '\U{2028}' || c == '\U{2029}' || c == '\U{202F}' || c == '\U{205F}'
    || c == '\U{3000}' || c == '\U{FEFF}'
  }

  predicate AllWhitespace(s: string)
  {
    forall k :: 0 <= k < |s| ==> IsWhitespace(s[k])
  }

  /** Every character of `s` before position `i` and from position `j` on is whitespace. */
  predicate WhitespaceOutside(s: string, i: int, j: int)
  {
    && (forall k :: 0 <= k < i && k < |s| ==> IsWhitespace(s[k]))
    && (forall k :: 0 <= j <= k < |s| ==> IsWhitespace(s[k]))
  }

  /** `r` is the part of `s` at position `i`, with only whitespace around it. */
  predicate TrimmedAt(s: string, i: int, r: string)
  {
    0 <= i <= |s| - |r| && r == s[i..i + |r|] && WhitespaceOutside(s, i, i + |r|)
  }

  /** A string is truthy in JavaScript exactly when it is not empty. */
  predicate Truthy(s: string)
  {
    s != ""
  }

  /** Strips leading whitespace: what is left is a suffix of `s`, what was
      removed is all whitespace, and the suffix does not start with whitespace. */
  function TrimStart(s: string): (r: string)
    ensures |r| <= |s| && r == s[|s| - |r|..]
    ensures WhitespaceOutside(s, |s| - |r|, |s|)
    ensures r == [] || !IsWhitespace(r[0])
  {
    if |s| > 0 && IsWhitespace(s[0]) then
      var r := TrimStart(s[1..]);
      assert s[1..][|s| - 1 - |r|..] == s[|s| - |r|..];
      assert forall k :: 0 < k < |s| ==> s[k] == s[1..][k - 1];
      r
    else
      s
  }

  /** Strips trailing whitespace: what is left is a prefix of `s`, what was
      removed is all whitespace, and the prefix does not end with whitespace. */
  function TrimEnd(s: string): (r: string)
    ensures |r| <= |s| && r == s[..|r|]
    ensures WhitespaceOutside(s, 0, |r|)
    ensures r == [] || !IsWhitespace(r[|r| - 1])
  {
    if |s| > 0 && IsWhitespace(s[|s| - 1]) then
      var r := TrimEnd(s[..|s| - 1]);
      assert s[..|s| - 1][..|r|] == s[..|r|];
      assert forall k :: 0 <= k < |s| - 1 ==> s[k] == s[..|s| - 1][k];
      r
    else
      s
  }

  /** `String.prototype.trim`: the slice `s[i..i + |r|]` left after removing
      whitespace from both ends. It is empty exactly when `s` is all whitespace. */
  function Trim(s: string): (r: string)
    ensures r == [] <==> AllWhitespace(s)
    ensures r != [] ==> !IsWhitespace(r[0]) && !IsWhitespace(r[|r| - 1])
    ensures exists i :: TrimmedAt(s, i, r)
  {
    var t := TrimStart(s);
    var r := TrimEnd(t);
    TrimBothEnds(s, |s| - |t|, t, r);
    r
  }

  /** What `Trim` promises, from what `TrimStart` (giving `t`, cut at `i`)
      and `TrimEnd` (giving `r`) promise. */
  lemma TrimBothEnds(s: string, i: nat, t: string, r: string)
    requires i <= |s| && t == s[i..] && WhitespaceOutside(s, i, |s|) && (t == [] || !IsWhitespace(t[0]))
    requires |r| <= |t| && r == t[..|r|] && WhitespaceOutside(t, 0, |r|) && (r == [] || !IsWhitespace(r[|r| - 1]))
    ensures r == [] <==> AllWhitespace(s)
    ensures r != [] ==> !IsWhitespace(r[0]) && !IsWhitespace(r[|r| - 1])
    ensures TrimmedAt(s, i, r)
  {
    assert s[i..i + |r|] == r;
    forall k | i + |r| <= k < |s| ensures IsWhitespace(s[k]) {
      assert s[k] == t[k - i];
    }
    assert r == [] ==> t == [];
    if t != [] {
      assert t[0] == s[i];
    }
  }

  /** `String.prototype.substr(start, length)` for non-negative arguments:
      at most `length` characters from position `start`, clamped to the string. */
  function Substr(s: string, start: nat, length: nat): (r: string)
    ensures |r| == if start >= |s| then 0 else if length <= |s| - start then length else |s| - start
    ensures forall k :: 0 <= k < |r| ==> r[k] == s[start + k]
  {
    if start >= |s| then ""
    else if length <= |s| - start then s[start..start + length]
    else s[start..]
  }
}
