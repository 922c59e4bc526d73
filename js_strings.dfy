/**
 * The two JavaScript string operations the core relies on:
 * `String.prototype.trim` (the schema trims every field before testing it)
 * and `String.prototype.includes` (the client's scheme check).
 */
module JsStrings {

  /**
   * The code points `trim` strips: ECMAScript's WhiteSpace (TAB, VT, FF,
   * ZWNBSP and every space separator) and LineTerminator (LF, CR, LS, PS).
   */
  predicate IsJsWhitespace(c: char) {
    var n := c as int;
    n == 0x09 || n == 0x0A || n == 0x0B || n == 0x0C || n == 0x0D
    || n == 0x20 || n == 0xA0 || n == 0x1680 || (0x2000 <= n <= 0x200A)
    || n == 0x2028 || n == 0x2029 || n == 0x202F || n == 0x205F
    || n == 0x3000 || n == 0xFEFF
  }

  /** `s` has no whitespace at either end, so `trim` leaves it alone. */
  predicate Unpadded(s: string) {
    s == [] || (!IsJsWhitespace(s[0]) && !IsJsWhitespace(s[|s| - 1]))
  }

  /** Drops the leading whitespace: the suffix of `s` that `trim` starts from. */
  function TrimStart(s: string): (r: string)
    ensures |r| <= |s| && r == s[|s| - |r|..]
    ensures r == [] || !IsJsWhitespace(r[0])
    ensures forall i :: 0 <= i < |s| - |r| ==> IsJsWhitespace(s[i])
  {
    if s != [] && IsJsWhitespace(s[0]) then TrimStart(s[1..]) else s
  }

  /** Drops the trailing whitespace: the prefix of `s` that `trim` ends at. */
  function TrimEnd(s: string): (r: string)
    ensures |r| <= |s| && r == s[..|r|]
    ensures r == [] || !IsJsWhitespace(r[|r| - 1])
    ensures forall i :: |r| <= i < |s| ==> IsJsWhitespace(s[i])
  {
    if s != [] && IsJsWhitespace(s[|s| - 1]) then TrimEnd(s[..|s| - 1]) else s
  }

  /**
   * `r` is `s[a..b]`, and everything of `s` outside that slice is
   * whitespace.
   */
  predicate StripsTo(s: string, r: string, a: int, b: int) {
    && 0 <= a <= b <= |s| && r == s[a..b]
    && (forall i :: 0 <= i < a ==> IsJsWhitespace(s[i]))
    && (forall i :: b <= i < |s| ==> IsJsWhitespace(s[i]))
  }

  /**
   * `s.trim()`: `s` with the whitespace at both ends removed, itself with
   * no whitespace at either end.
   */
  function Trim(s: string): (r: string)
    ensures Unpadded(r)
  {
    TrimEnd(TrimStart(s))
  }

  /** What `trim` returns is a slice of `s`, and only whitespace lies outside it. */
  lemma TrimStripsWhitespace(s: string)
    ensures exists a, b :: StripsTo(s, Trim(s), a, b)
  {
    var t := TrimStart(s);
    var r := TrimEnd(t);
    var a := |s| - |t|;
    var b := a + |r|;
    assert r == s[a..b] by {
      assert s[a..b] == t[..|r|];
    }
    forall i | b <= i < |s|
      ensures IsJsWhitespace(s[i])
    {
      assert s[i] == t[i - a];
    }
    assert StripsTo(s, Trim(s), a, b);
  }

  /** A string with nothing to strip is its own trimmed form. */
  lemma TrimUnpadded(s: string)
    requires Unpadded(s)
    ensures Trim(s) == s
  {
    assert TrimStart(s) == s;
  }

  /** A space in front of an unpadded string is what `trim` removes. */
  lemma TrimLeadingSpace(s: string)
    requires Unpadded(s)
    ensures Trim(" " + s) == s
  {
    assert (" " + s)[1..] == s;
    assert TrimStart(" " + s) == TrimStart(s);
    TrimUnpadded(s);
  }

  /** `sub` occurs in `s` starting at index `i`. */
  predicate OccursAt(s: string, sub: string, i: int) {
    0 <= i && i + |sub| <= |s| && s[i..i + |sub|] == sub
  }

  /**
   * `sub` occurs in a non-empty `s` exactly when it occurs at the front or
   * somewhere in the tail.
   */
  lemma OccursFrontOrTail(s: string, sub: string)
    requires s != []
    ensures (exists i :: OccursAt(s, sub, i)) <==>
      OccursAt(s, sub, 0) || exists j :: OccursAt(s[1..], sub, j)
  {
    forall i | OccursAt(s, sub, i) && i != 0
      ensures OccursAt(s[1..], sub, i - 1)
    {
      assert s[1..][i - 1..i - 1 + |sub|] == s[i..i + |sub|];
    }
    forall j | OccursAt(s[1..], sub, j)
      ensures OccursAt(s, sub, j + 1)
    {
      assert s[1..][j..j + |sub|] == s[j + 1..j + 1 + |sub|];
    }
  }

  /** `s.includes(sub)`: `sub` occurs in `s` at some position. */
  function Includes(s: string, sub: string): (r: bool)
    ensures r <==> exists i :: OccursAt(s, sub, i)
    decreases |s|
  {
    if |s| < |sub| then false
    else if s[..|sub|] == sub then assert OccursAt(s, sub, 0); true
    else
      OccursFrontOrTail(s, sub);
      Includes(s[1..], sub)
  }

  /** A string includes each of its prefixes. */
  lemma IncludesPrefix(p: string, s: string)
    ensures Includes(p + s, p)
  {
    assert OccursAt(p + s, p, 0);
  }
}
