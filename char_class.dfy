/** Character classes shared by the typer and the configuration reader. */
module CharClass {

  /** Python's `str.isspace` for one character: the characters CPython's
      Unicode database treats as whitespace (general category Zs, or
      bidirectional class WS, B or S). */
  predicate IsSpace(c: char) {
    ('\t' <= c <= '\r') || ('\U{1C}' <= c <= ' ') || c == '\U{85}' || c == '\U{A0}'
    || c == '\U{1680}' || ('\U{2000}' <= c <= '\U{200A}') || c == '\U{2028}'
    || c == '\U{2029}' || c == '\U{202F}' || c == '\U{205F}' || c == '\U{3000}'
  }

  lemma SpaceBasics()
    ensures IsSpace('\n') && IsSpace('\t') && IsSpace(' ') && IsSpace('\r')
    ensures !IsSpace('=') && !IsSpace('#') && !IsSpace('a')
  {
  }

  /** `ord(c) > 127`: the character lies outside ASCII. */
  predicate IsNonAscii(c: char) {
    c as int > 127
  }

  /** Some character of `w` lies outside ASCII. */
  predicate HasNonAscii(w: string) {
    exists m :: 0 <= m < |w| && IsNonAscii(w[m])
  }

  /** No character of `w` is whitespace. */
  predicate NoSpace(w: string) {
    forall m :: 0 <= m < |w| ==> !IsSpace(w[m])
  }

  /** Extending a word by one character: it stays free of whitespace, and
      gains a character outside ASCII, exactly as that character says. */
  lemma {:induction false} SnocScan(w: string, c: char)
    ensures NoSpace(w + [c]) <==> NoSpace(w) && !IsSpace(c)
    ensures HasNonAscii(w + [c]) <==> HasNonAscii(w) || IsNonAscii(c)
  {
    var v := w + [c];
    assert v[|w|] == c;
    assert forall m :: 0 <= m < |w| ==> v[m] == w[m];
  }

  /** Length of the longest prefix of `s` without whitespace: the end of the
      word that starts at the front of `s`. */
  function WordLen(s: string): (n: nat)
    ensures n <= |s|
    ensures NoSpace(s[..n])
    ensures n == |s| || IsSpace(s[n])
  {
    if s == [] || IsSpace(s[0]) then 0 else 1 + WordLen(s[1..])
  }

  /** The two ensures of WordLen pin it down: any prefix length with the same
      two properties is WordLen. */
  lemma {:induction false} WordLenUnique(s: string, n: nat)
    requires n <= |s| && NoSpace(s[..n]) && (n == |s| || IsSpace(s[n]))
    ensures WordLen(s) == n
  {
    if n > 0 {
      assert s[..n][0] == s[0];
      assert s[1..][..n - 1] == s[..n][1..];
      WordLenUnique(s[1..], n - 1);
    }
  }
}
