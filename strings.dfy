/** String helpers from Go's `strings` package as the core uses them.
    Strings are sequences of characters; lower-casing is ASCII only. */
module Strings {

  /** True when `c` is an upper-case ASCII letter. */
  predicate IsUpper(c: char) {
    'A' <= c <= 'Z'
  }

  /** Growing a prefix of `s` by its next element. */
  lemma AppendNext<T>(a: seq<T>, s: seq<T>, k: nat)
    requires k < |s|
    ensures a + s[..k] + [s[k]] == a + s[..k + 1]
  {
    assert s[..k + 1] == s[..k] + [s[k]];
  }

  /** `strings.ToLower` on one character (ASCII letters only). */
  function LowerChar(c: char): (r: char)
    ensures !IsUpper(r)
    ensures !IsUpper(c) ==> r == c
  {
    if IsUpper(c) then (c as int + 32) as char else c
  }

  /** `strings.ToLower`: every upper-case ASCII letter becomes lower case,
      every other character is kept. */
  function Lower(s: string): (r: string)
    ensures |r| == |s|
    ensures forall i :: 0 <= i < |s| ==> r[i] == LowerChar(s[i])
  {
    seq(|s|, i requires 0 <= i < |s| => LowerChar(s[i]))
  }

  /** A string with no upper-case letter. */
  predicate IsLowerString(s: string) {
    forall i :: 0 <= i < |s| ==> !IsUpper(s[i])
  }

  lemma LowerIsLower(s: string)
    ensures IsLowerString(Lower(s))
  {
  }

  /** Lower-casing a string that is already lower case changes nothing. */
  lemma LowerOfLower(s: string)
    requires IsLowerString(s)
    ensures Lower(s) == s
  {
  }

  lemma LowerIdempotent(s: string)
    ensures Lower(Lower(s)) == Lower(s)
  {
    LowerOfLower(Lower(s));
  }

  lemma LowerConcat(a: string, b: string)
    ensures Lower(a + b) == Lower(a) + Lower(b)
  {
  }

  /** `strings.HasPrefix`. */
  predicate HasPrefix(s: string, p: string) {
    |p| <= |s| && s[..|p|] == p
  }

  lemma HasPrefixOfConcat(p: string, s: string, q: string)
    requires |p| <= |q|
    ensures HasPrefix(p + s, q) <==> q[..|p|] == p && HasPrefix(s, q[|p|..])
  {
    if HasPrefix(p + s, q) {
      assert (p + s)[..|q|][..|p|] == p;
      assert (p + s)[..|q|][|p|..] == s[..|q| - |p|];
    }
    if q[..|p|] == p && HasPrefix(s, q[|p|..]) {
      assert q == q[..|p|] + q[|p|..];
      assert (p + s)[..|q|] == p + s[..|q| - |p|];
    }
  }

  /** `needle` occurs in `hay` at some position (the declarative reading). */
  ghost predicate IsSubstring(needle: string, hay: string) {
    exists i :: 0 <= i <= |hay| && HasPrefix(hay[i..], needle)
  }

  /** `strings.Contains(hay, needle)`, searching from the left. */
  function Contains(hay: string, needle: string): (r: bool)
    ensures r <==> IsSubstring(needle, hay)
    decreases |hay|
  {
    if HasPrefix(hay, needle) then
      assert hay[0..] == hay;
      true
    else if |hay| == 0 then
      false
    else
      var r := Contains(hay[1..], needle);
      assert forall i :: 1 <= i <= |hay| ==> hay[i..] == hay[1..][i - 1..];
      if r then
        var i :| 0 <= i <= |hay[1..]| && HasPrefix(hay[1..][i..], needle);
        assert hay[i + 1..] == hay[1..][i..];
        r
      else
        r
  }

  /** `strings.Join(parts, sep)`. */
  function Join(parts: seq<string>, sep: string): string
    decreases |parts|
  {
    if |parts| == 0 then ""
    else if |parts| == 1 then parts[0]
    else Join(parts[..|parts| - 1], sep) + sep + parts[|parts| - 1]
  }

  /** The last element of `strings.Split(s, "\n")`: the text after the last
      newline, or all of `s` when it holds no newline. */
  function LastLine(s: string): (r: string)
    ensures |r| <= |s| && r == s[|s| - |r|..]
    ensures '\n' !in r
    ensures r == s || s[|s| - |r| - 1] == '\n'
    decreases |s|
  {
    if |s| == 0 then ""
    else if s[|s| - 1] == '\n' then ""
    else
      var init := s[..|s| - 1];
      var t := LastLine(init);
      var r := t + [s[|s| - 1]];
      assert init[|init| - |t|..] + [s[|s| - 1]] == s[|s| - |r|..];
      assert t == init ==> r == s;
      assert t != init ==> s[|s| - |r| - 1] == init[|init| - |t| - 1];
      r
  }

  /** A string without a newline is its own last line. */
  lemma {:induction false} LastLineWithoutNewline(s: string)
    requires '\n' !in s
    ensures LastLine(s) == s
    decreases |s|
  {
    if |s| > 0 {
      var init := s[..|s| - 1];
      assert s[|s| - 1] in s;
      assert forall c :: c in init ==> c in s;
      LastLineWithoutNewline(init);
      assert init + [s[|s| - 1]] == s;
    }
  }

  /** The last line is what follows the last newline. */
  lemma {:induction false} LastLineAfterNewline(earlier: string, latest: string)
    requires '\n' !in latest
    ensures LastLine(earlier + "\n" + latest) == latest
    decreases |latest|
  {
    var s := earlier + "\n" + latest;
    if |latest| > 0 {
      var init := latest[..|latest| - 1];
      assert latest[|latest| - 1] in latest;
      assert forall c :: c in init ==> c in latest;
      LastLineAfterNewline(earlier, init);
      assert s[..|s| - 1] == earlier + "\n" + init;
      assert init + [latest[|latest| - 1]] == latest;
    }
  }
}
