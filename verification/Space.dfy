// Whitespace as JavaScript's `\s` and `trim` know it.
module Space {

  /** What `\s` matches. */
  predicate IsSpace(c: char) {
    || c == '\t' || c == '\n' || c == '\r' || c == ' ' || c == '\U{0B}' || c == '\U{0C}' || c == '\U{A0}'
       || c == '\U{1680}'
    || '\U{2000}' <= c <= '\U{200A}' || c == '\U{2028}' || c == '\U{2029}' || c == '\U{202F}'
    || c == '\U{205F}' || c == '\U{3000}' || c == '\U{FEFF}'
  }

  lemma SpaceSays(c: char)
    ensures IsSpace(c) <==> c as int in {9, 10, 11, 12, 13, 32, 0xA0, 0x1680, 0x2000, 0x2001, 0x2002, 0x2003, 0x2004,
                                         0x2005, 0x2006, 0x2007, 0x2008, 0x2009, 0x200A, 0x2028, 0x2029, 0x202F,
                                         0x205F, 0x3000, 0xFEFF}
  {
  }

  predicate Spaces(s: string) {
    forall k :: 0 <= k < |s| ==> IsSpace(s[k])
  }

  function SpaceLength(s: string): (n: nat)
    ensures n <= |s| && Spaces(s[..(n)])
    ensures n < |s| ==> !IsSpace(s[n])
  {
    if s == "" || !IsSpace(s[0]) then 0
    else
      var n := SpaceLength(s[1..]);
      assert s[..n + 1] == [s[0]] + s[1..][..n];
      n + 1
  }

  /** The end of the text before `end`, without the whitespace it ends in. */
  function TrimBack(text: string, end: nat): (r: nat)
    requires end <= |text|
    ensures r <= end
  {
    if end > 0 && IsSpace(text[end - 1]) then TrimBack(text, end - 1) else end
  }

  /** `s.trim()`. */
  function Trimmed(s: string): string {
    var t := s[..TrimBack(s, |s|)];
    t[SpaceLength(t)..]
  }

  /** Nothing but whitespace from `r` up to `n`, and none right before `r`. */
  predicate TrimsTo(s: string, n: nat, r: nat) {
    r <= n <= |s| && (forall k :: r <= k < n ==> IsSpace(s[k])) && (r > 0 ==> !IsSpace(s[r - 1]))
  }

  lemma {:induction false} TrimBackIs(s: string, n: nat, r: nat)
    requires TrimsTo(s, n, r)
    ensures TrimBack(s, n) == r
    decreases n
  {
    if n > r {
      TrimBackIs(s, n - 1, r);
    }
  }

  lemma {:induction false} TrimBackDoes(s: string, n: nat)
    requires n <= |s|
    ensures TrimsTo(s, n, TrimBack(s, n))
    decreases n
  {
    if n > 0 && IsSpace(s[n - 1]) {
      TrimBackDoes(s, n - 1);
    }
  }

  lemma {:induction false} SpaceLengthIs(s: string, n: nat)
    requires n <= |s| && (forall k :: 0 <= k < n ==> IsSpace(s[k])) && (n < |s| ==> !IsSpace(s[n]))
    ensures SpaceLength(s) == n
  {
    if n > 0 {
      SpaceLengthIs(s[1..], n - 1);
    }
  }
}
