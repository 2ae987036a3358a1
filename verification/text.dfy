/**
 * The string operations the task store relies on: JavaScript's `trim`,
 * `toLowerCase`, `toUpperCase` and `includes`, and the ordering of
 * ISO-8601 date strings.
 */
module Text {

  /** The code points ECMAScript's `String.prototype.trim` removes:
      WhiteSpace (tab, vertical tab, form feed, space, no-break space,
      byte order mark and the Zs category) and LineTerminator. */
  predicate IsSpace(c: char) {
    var n := c as int;
    n == 0x09 || n == 0x0A || n == 0x0B || n == 0x0C || n == 0x0D ||
    n == 0x20 || n == 0xA0 || n == 0x1680 || (0x2000 <= n <= 0x200A) ||
    n == 0x2028 || n == 0x2029 || n == 0x202F || n == 0x205F ||
    n == 0x3000 || n == 0xFEFF
  }

  /** Empty, or made of whitespace only. */
  predicate Blank(s: string) {
    forall i :: 0 <= i < |s| ==> IsSpace(s[i])
  }

  function LowerChar(c: char): char {
    if 'A' <= c <= 'Z' then (c as int + 32) as char else c
  }

  function UpperChar(c: char): char {
    if 'a' <= c <= 'z' then (c as int - 32) as char else c
  }

  /** `toLowerCase`, on the ASCII letters. */
  function Lower(s: string): (r: string)
    ensures |r| == |s|
  {
    seq(|s|, i requires 0 <= i < |s| => LowerChar(s[i]))
  }

  /** Lower-casing leaves no upper-case letter, changes every other
      character not at all, and is idempotent. */
  lemma LowerCases(s: string)
    ensures forall i :: 0 <= i < |s| ==> !('A' <= Lower(s)[i] <= 'Z')
    ensures forall i :: 0 <= i < |s| && !('A' <= s[i] <= 'Z') ==> Lower(s)[i] == s[i]
    ensures Lower(Lower(s)) == Lower(s)
  {
  }

  /** `s.charAt(0).toUpperCase() + s.slice(1)`: only the case of the first
      character may change, and it is not a lower-case letter afterwards. */
  function Capitalize(s: string): (r: string)
    ensures |r| == |s|
    ensures s != [] ==> r[1..] == s[1..]
    ensures Lower(r) == Lower(s)
    ensures r != [] ==> !('a' <= r[0] <= 'z')
  {
    if s == [] then []
    else
      var r := [UpperChar(s[0])] + s[1..];
      assert LowerChar(r[0]) == LowerChar(s[0]);
      assert forall i :: 0 <= i < |r| ==> Lower(r)[i] == Lower(s)[i];
      r
  }

  /** Leading whitespace removed: what is left is a suffix of `s`, what was
      dropped is whitespace, and what is left does not start with any. */
  function TrimStart(s: string): (r: string)
    ensures |r| <= |s| && r == s[|s| - |r|..]
    ensures Blank(s[..|s| - |r|])
    ensures r == [] || !IsSpace(r[0])
  {
    if s != [] && IsSpace(s[0]) then TrimStart(s[1..]) else s
  }

  /** Trailing whitespace removed: what is left is a prefix of `s`, what was
      dropped is whitespace, and what is left does not end with any. */
  function TrimEnd(s: string): (r: string)
    ensures |r| <= |s| && r == s[..|r|]
    ensures Blank(s[|r|..])
    ensures r == [] || !IsSpace(r[|r| - 1])
  {
    if s != [] && IsSpace(s[|s| - 1]) then TrimEnd(s[..|s| - 1]) else s
  }

  /** `String.prototype.trim`: a part of `s` that neither starts nor ends
      with whitespace. */
  function Trim(s: string): (r: string)
    ensures |r| <= |s|
    ensures r != [] ==> !IsSpace(r[0]) && !IsSpace(r[|r| - 1])
  {
    var t := TrimStart(s);
    var r := TrimEnd(t);
    assert r != [] ==> r[0] == t[0];
    r
  }

  /** Trimming leaves nothing exactly when the string was blank. */
  lemma TrimEmptyIffBlank(s: string)
    ensures Trim(s) == [] <==> Blank(s)
  {
    var t := TrimStart(s);
    var k := |s| - |t|;
    if Trim(s) == [] {
      assert Blank(t[0..]);
      assert t == [];
      assert s[..k] == s;
    } else {
      assert t != [];
      assert t[0] == s[k];
    }
  }

  /** A trimmed string that is not empty starts and ends with a
      character that is not whitespace, and it is the part of the
      original left between a blank prefix and a blank suffix. */
  lemma TrimmedEdges(s: string)
    ensures Trim(s) != [] ==> !IsSpace(Trim(s)[0]) && !IsSpace(Trim(s)[|Trim(s)| - 1])
    ensures exists a :: OccursAt(s, Trim(s), a) && Blank(s[..a]) && Blank(s[a + |Trim(s)|..])
  {
    var t := TrimStart(s);
    var r := Trim(s);
    var a := |s| - |t|;
    assert s[a..a + |r|] == t[..|r|];
    assert s[a + |r|..] == t[|r|..];
    assert OccursAt(s, r, a);
  }

  /** Lower-casing neither creates nor removes whitespace. */
  lemma {:induction false} LowerKeepsBlank(s: string)
    ensures Blank(Lower(s)) <==> Blank(s)
  {
    forall i | 0 <= i < |s| ensures IsSpace(Lower(s)[i]) <==> IsSpace(s[i]) {
      assert Lower(s)[i] == LowerChar(s[i]);
    }
  }

  /** `needle` occurs in `s` at position `i`. */
  ghost predicate OccursAt(s: string, needle: string, i: int) {
    0 <= i && i + |needle| <= |s| && s[i..i + |needle|] == needle
  }

  /** `String.prototype.includes`: true exactly when `needle` occurs
      somewhere in `s` (the empty needle occurs everywhere). */
  function Contains(s: string, needle: string): (b: bool)
    ensures b <==> exists i :: OccursAt(s, needle, i)
    decreases |s|
  {
    if |needle| > |s| then
      assert forall i :: !OccursAt(s, needle, i);
      false
    else if s[..|needle|] == needle then
      assert OccursAt(s, needle, 0);
      true
    else
      var b := Contains(s[1..], needle);
      assert b ==> exists i :: OccursAt(s, needle, i) by {
        forall i | OccursAt(s[1..], needle, i) ensures OccursAt(s, needle, i + 1) {
          assert s[i + 1..i + 1 + |needle|] == s[1..][i..i + |needle|];
        }
      }
      assert (exists i :: OccursAt(s, needle, i)) ==> b by {
        forall i | OccursAt(s, needle, i) ensures OccursAt(s[1..], needle, i - 1) {
          assert i != 0;
          assert s[1..][i - 1..i - 1 + |needle|] == s[i..i + |needle|];
        }
      }
      b
  }

  /** Lexicographic order on strings, by code point: for ISO-8601 date
      strings of the form YYYY-MM-DD it is the calendar order. */
  predicate StrLe(a: string, b: string) {
    if a == [] then true
    else if b == [] then false
    else a[0] < b[0] || (a[0] == b[0] && StrLe(a[1..], b[1..]))
  }

  /** Strictly before in that order. */
  predicate StrLt(a: string, b: string) {
    !StrLe(b, a)
  }

  lemma {:induction false} StrLeReflexive(a: string)
    ensures StrLe(a, a)
  {
    if a != [] {
      StrLeReflexive(a[1..]);
    }
  }

  lemma {:induction false} StrLeAntisymmetric(a: string, b: string)
    requires StrLe(a, b) && StrLe(b, a)
    ensures a == b
  {
    if a != [] && b != [] {
      StrLeAntisymmetric(a[1..], b[1..]);
      assert a == [a[0]] + a[1..];
      assert b == [b[0]] + b[1..];
    }
  }

  lemma {:induction false} StrLeTransitive(a: string, b: string, c: string)
    requires StrLe(a, b) && StrLe(b, c)
    ensures StrLe(a, c)
  {
    if a != [] && b != [] && c != [] && a[0] == b[0] == c[0] {
      StrLeTransitive(a[1..], b[1..], c[1..]);
    }
  }

  lemma {:induction false} StrLeTotal(a: string, b: string)
    ensures StrLe(a, b) || StrLe(b, a)
  {
    if a != [] && b != [] && a[0] == b[0] {
      StrLeTotal(a[1..], b[1..]);
    }
  }
}
