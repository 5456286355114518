/**
 * Case-insensitive string comparison, restricted to ASCII letters.
 * Only the letters 'A'..'Z' are folded; every other character compares as itself.
 */
module AsciiCase {

  predicate IsUpper(c: char) {
    'A' <= c <= 'Z'
  }

  /** Maps an upper-case ASCII letter to its lower-case partner, anything else to itself. */
  function FoldChar(c: char): (d: char)
    ensures !IsUpper(d)
    ensures IsUpper(c) ==> 'a' <= d <= 'z' && d as int - c as int == 'a' as int - 'A' as int
    ensures !IsUpper(c) ==> d == c
  {
    if IsUpper(c) then (c as int + ('a' as int - 'A' as int)) as char else c
  }

  /** Folds every character of `s`. */
  function Lower(s: string): (t: string)
    ensures |t| == |s|
    ensures forall i :: 0 <= i < |s| ==> t[i] == FoldChar(s[i])
  {
    seq(|s|, i requires 0 <= i < |s| => FoldChar(s[i]))
  }

  /**
   * Character-by-character comparison after folding, as `equalsIgnoreCase`
   * does: strings of different length are never equal.
   */
  function EqualsIgnoreCase(a: string, b: string): (r: bool)
    ensures r <==> Lower(a) == Lower(b)
    decreases |a|
  {
    if |a| != |b| then
      false
    else if |a| == 0 then
      true
    else
      FoldChar(a[0]) == FoldChar(b[0]) && EqualsIgnoreCase(a[1..], b[1..])
  }
}
