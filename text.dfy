/**
 * The few string operations of Go's standard library that the core relies on:
 * `strings.ToLower`, `strings.ReplaceAll` with a one-character pattern, and the
 * ordering of strings by `<`.
 */
module Text {

  /** Go lower-cases every upper-case letter; only ASCII letters are modelled. */
  function LowerChar(c: char): char {
    if 'A' <= c <= 'Z' then (c as int + 32) as char else c
  }

  predicate IsUpper(c: char) {
    'A' <= c <= 'Z'
  }

  /** `strings.ToLower` */
  function Lower(s: string): string {
    seq(|s|, i requires 0 <= i < |s| => LowerChar(s[i]))
  }

  /** `strings.ReplaceAll(s, string(from), string(to))` */
  function Replace(s: string, from: char, to: char): string {
    seq(|s|, i requires 0 <= i < |s| => if s[i] == from then to else s[i])
  }

  /** `strings.ReplaceAll(s, string(c), "")` */
  function Remove(s: string, c: char): (r: string)
    ensures c !in r
    ensures |r| <= |s|
    ensures c !in s ==> r == s
  {
    if s == [] then []
    else (if s[0] == c then [] else [s[0]]) + Remove(s[1..], c)
  }

  lemma {:induction false} RemoveAppend(a: string, b: string, c: char)
    ensures Remove(a + b, c) == Remove(a, c) + Remove(b, c)
  {
    if a == [] {
      assert a + b == b;
    } else {
      assert (a + b)[1..] == a[1..] + b;
      RemoveAppend(a[1..], b, c);
    }
  }

  /** Lower-casing leaves no upper-case letter behind, keeps the length, and is idempotent. */
  lemma LowerProperties(s: string)
    ensures |Lower(s)| == |s|
    ensures forall i | 0 <= i < |s| :: !IsUpper(Lower(s)[i])
    ensures Lower(Lower(s)) == Lower(s)
  {
  }

  /**
   * Go's `<` on strings: byte-wise lexicographic order of the UTF-8 encodings,
   * which is the same as code-point order on the characters.
   */
  predicate Less(a: string, b: string) {
    if a == [] then b != []
    else if b == [] then false
    else if a[0] != b[0] then a[0] < b[0]
    else Less(a[1..], b[1..])
  }

  lemma {:induction false} LessIrreflexive(a: string)
    ensures !Less(a, a)
  {
    if a != [] {
      LessIrreflexive(a[1..]);
    }
  }

  lemma {:induction false} LessTransitive(a: string, b: string, c: string)
    requires Less(a, b) && Less(b, c)
    ensures Less(a, c)
  {
    if a != [] && b != [] && c != [] && a[0] == b[0] && b[0] == c[0] {
      LessTransitive(a[1..], b[1..], c[1..]);
    }
  }

  /** Two strings neither of which is below the other are equal: `Less` is a strict total order. */
  lemma {:induction false} LessTotal(a: string, b: string)
    requires !Less(a, b) && !Less(b, a)
    ensures a == b
  {
    if a != [] && b != [] {
      LessTotal(a[1..], b[1..]);
      assert a == [a[0]] + a[1..] && b == [b[0]] + b[1..];
    }
  }
}
