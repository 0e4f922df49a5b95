// The longest common subsequence: what a line diff is measured against.
module Lcs {

  function Max(m: int, n: int): int {
    if m < n then n else m
  }

  /** The length the differ's table holds for two suffixes. */
  function Length(a: seq<string>, b: seq<string>): (n: nat)
    ensures n <= |a| && n <= |b|
    decreases |a| + |b|
  {
    if a == [] || b == [] then 0
    else if a[0] == b[0] then 1 + Length(a[1..], b[1..])
    else Max(Length(a[1..], b), Length(a, b[1..]))
  }

  /** `c` can be had from `a` by leaving elements out. */
  ghost predicate Subsequence(c: seq<string>, a: seq<string>)
    decreases |a|
  {
    if c == [] then true
    else a != [] && ((c[0] == a[0] && Subsequence(c[1..], a[1..])) || Subsequence(c, a[1..]))
  }

  ghost predicate Common(c: seq<string>, a: seq<string>, b: seq<string>) {
    Subsequence(c, a) && Subsequence(c, b)
  }

  lemma SubsequenceCons(c: seq<string>, a: seq<string>, x: string)
    requires Subsequence(c, a)
    ensures Subsequence([x] + c, [x] + a) && Subsequence(c, [x] + a)
  {
    assert ([x] + c)[1..] == c;
    assert ([x] + a)[1..] == a;
  }

  lemma {:induction false} SubsequenceTail(c: seq<string>, a: seq<string>)
    requires c != [] && Subsequence(c, a)
    ensures Subsequence(c[1..], a)
    ensures a != [] ==> Subsequence(c[1..], a[1..])
    decreases |a|
  {
    if c[0] == a[0] && Subsequence(c[1..], a[1..]) {
    } else {
      SubsequenceTail(c, a[1..]);
    }
  }

  /** No common subsequence is longer than the table's number. */
  lemma {:induction false} UpperBound(c: seq<string>, a: seq<string>, b: seq<string>)
    requires Common(c, a, b)
    ensures |c| <= Length(a, b)
    decreases |a| + |b|
  {
    if c == [] {
    } else if a[0] == b[0] {
      SubsequenceTail(c, a);
      SubsequenceTail(c, b);
      UpperBound(c[1..], a[1..], b[1..]);
    } else if Subsequence(c, a[1..]) {
      UpperBound(c, a[1..], b);
    } else {
      UpperBound(c, a, b[1..]);
    }
  }

  /** Some common subsequence is as long as the table's number. */
  lemma {:induction false} Attained(a: seq<string>, b: seq<string>) returns (c: seq<string>)
    ensures Common(c, a, b) && |c| == Length(a, b)
    decreases |a| + |b|
  {
    if a == [] || b == [] {
      c := [];
    } else if a[0] == b[0] {
      var rest := Attained(a[1..], b[1..]);
      c := [a[0]] + rest;
      assert c[1..] == rest;
    } else if Length(a[1..], b) >= Length(a, b[1..]) {
      c := Attained(a[1..], b);
    } else {
      c := Attained(a, b[1..]);
    }
  }

  lemma LongerBelow(a: seq<string>, b: seq<string>)
    requires b != []
    ensures Length(a, b[1..]) <= Length(a, b)
  {
    var c := Attained(a, b[1..]);
    assert Subsequence(c, b);
    UpperBound(c, a, b);
  }

  lemma {:induction false} LastInFront(x: string, b: seq<string>)
    ensures Length([x], b + [x]) == 1 && Length(b + [x], [x]) == 1
  {
    if b == [] {
      assert b + [x] == [x];
    } else {
      LastInFront(x, b[1..]);
      assert (b + [x])[1..] == b[1..] + [x];
    }
  }

  lemma {:induction false} SharedLast(a: seq<string>, b: seq<string>, x: string)
    ensures Length(a + [x], b + [x]) == Length(a, b) + 1
    decreases |a| + |b|
  {
    if a == [] {
      LastInFront(x, b);
      assert a + [x] == [x];
    } else if b == [] {
      LastInFront(x, a);
      assert b + [x] == [x];
    } else {
      assert (a + [x])[1..] == a[1..] + [x];
      assert (b + [x])[1..] == b[1..] + [x];
      if a[0] == b[0] {
        SharedLast(a[1..], b[1..], x);
      } else {
        SharedLast(a[1..], b, x);
        SharedLast(a, b[1..], x);
      }
    }
  }

  lemma {:induction false} SharedTail(a: seq<string>, b: seq<string>, tail: seq<string>)
    ensures Length(a + tail, b + tail) == Length(a, b) + |tail|
  {
    if tail == [] {
      assert a + tail == a && b + tail == b;
    } else {
      var n := |tail| - 1;
      assert a + tail == (a + tail[..n]) + [tail[n]];
      assert b + tail == (b + tail[..n]) + [tail[n]];
      SharedLast(a + tail[..n], b + tail[..n], tail[n]);
      SharedTail(a, b, tail[..n]);
    }
  }

  lemma {:induction false} SharedHead(a: seq<string>, b: seq<string>, head: seq<string>)
    ensures Length(head + a, head + b) == Length(a, b) + |head|
  {
    if head == [] {
      assert head + a == a && head + b == b;
    } else {
      assert (head + a)[1..] == head[1..] + a;
      assert (head + b)[1..] == head[1..] + b;
      SharedHead(a, b, head[1..]);
    }
  }
}
