/**
 * `_String.camelTolowerDash` (string.js): every ASCII capital becomes a dash
 * followed by its lower-case form, then one leading underscore, if there is
 * one, is dropped.
 */
module StringUtil {

  /** A character the pattern `[A-Z]` matches. */
  predicate IsUpper(c: char) {
    'A' <= c <= 'Z'
  }

  /** `c.toLowerCase()` for an ASCII capital. */
  function Lower(c: char): (r: char)
    requires IsUpper(c)
    ensures 'a' <= r <= 'z'
  {
    (c as int - 'A' as int + 'a' as int) as char
  }

  /** What `replace` puts in place of one character. */
  function Piece(c: char): (r: string)
    ensures IsUpper(c) ==> r == ['-', Lower(c)]
    ensures !IsUpper(c) ==> r == [c]
  {
    if IsUpper(c) then ['-', Lower(c)] else [c]
  }

  /** `str.replace(/[A-Z]/g, m => "-" + m.toLowerCase())` */
  function DashUpper(s: string): (r: string)
    ensures forall i :: 0 <= i < |r| ==> !IsUpper(r[i])
    ensures |r| >= |s|
  {
    if s == [] then [] else Piece(s[0]) + DashUpper(s[1..])
  }

  /** `camelTolowerDash(str)` */
  function CamelToLowerDash(s: string): (r: string)
    ensures forall i :: 0 <= i < |r| ==> !IsUpper(r[i])
  {
    var t := DashUpper(s);
    if |t| > 0 && t[0] == '_' then t[1..] else t
  }

  /** The replacement works character by character. */
  lemma {:induction false} DashUpperAppend(a: string, b: string)
    ensures DashUpper(a + b) == DashUpper(a) + DashUpper(b)
    decreases |a|
  {
    if a != [] {
      assert (a + b)[0] == a[0] && (a + b)[1..] == a[1..] + b;
      DashUpperAppend(a[1..], b);
      var x, y, z := Piece(a[0]), DashUpper(a[1..]), DashUpper(b);
      assert DashUpper(a + b) == x + (y + z);
      assert DashUpper(a) == x + y;
      assert x + (y + z) == (x + y) + z;
    } else {
      assert a + b == b;
    }
  }

  /**
   * Each character of the input contributes its own piece, in place: a
   * capital `c` at position `i` becomes `-` and its lower-case form, with the
   * replacements of the text before and after it on either side.
   */
  lemma EachUpperReplaced(s: string, i: nat)
    requires i < |s|
    ensures DashUpper(s) == DashUpper(s[..i]) + Piece(s[i]) + DashUpper(s[i + 1..])
  {
    var p, c, q := s[..i], [s[i]], s[i + 1..];
    SplitAround(s, i);
    DashUpperAppend(p + c, q);
    DashUpperAppend(p, c);
    DashUpperOne(s[i]);
  }

  lemma SplitAround(s: string, i: nat)
    requires i < |s|
    ensures s == s[..i] + [s[i]] + s[i + 1..]
  {
    assert s[i..] == [s[i]] + s[i + 1..];
    assert s == s[..i] + s[i..];
  }

  lemma DashUpperOne(c: char)
    ensures DashUpper([c]) == Piece(c)
  {
    assert [c][1..] == [];
  }

  /** Text without capitals is left alone by the replacement. */
  lemma {:induction false} DashUpperNoUpper(s: string)
    requires forall i :: 0 <= i < |s| ==> !IsUpper(s[i])
    ensures DashUpper(s) == s
    decreases |s|
  {
    if s != [] {
      DashUpperNoUpper(s[1..]);
    }
  }

  /**
   * Exactly one underscore is dropped, and only when the input starts with
   * one: the result is the replacement of the rest of the input.
   */
  lemma StripsOneUnderscore(s: string)
    ensures |s| > 0 && s[0] == '_' ==> CamelToLowerDash(s) == DashUpper(s[1..])
    ensures !(|s| > 0 && s[0] == '_') ==> CamelToLowerDash(s) == DashUpper(s)
  {
    if |s| > 0 {
      assert DashUpper(s) == Piece(s[0]) + DashUpper(s[1..]);
    }
  }

  /** A leading capital gives a leading dash, which is kept. */
  lemma LeadingUpper(s: string)
    requires |s| > 0 && IsUpper(s[0])
    ensures |CamelToLowerDash(s)| >= 2
    ensures CamelToLowerDash(s)[0] == '-' && CamelToLowerDash(s)[1] == Lower(s[0])
  {
    assert DashUpper(s) == Piece(s[0]) + DashUpper(s[1..]);
  }

  /** Input with no capital and no leading underscore is returned unchanged. */
  lemma Unchanged(s: string)
    requires forall i :: 0 <= i < |s| ==> !IsUpper(s[i])
    requires |s| == 0 || s[0] != '_'
    ensures CamelToLowerDash(s) == s
  {
    DashUpperNoUpper(s);
  }

  /** Two leading underscores keep one. */
  lemma DoubleUnderscore(s: string)
    requires |s| >= 2 && s[0] == '_' && s[1] == '_'
    ensures |CamelToLowerDash(s)| > 0 && CamelToLowerDash(s)[0] == '_'
  {
    StripsOneUnderscore(s);
    assert DashUpper(s[1..]) == Piece(s[1]) + DashUpper(s[2..]);
  }
}
