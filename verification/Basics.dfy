/** Types shared by all components. */
module Basics {
  datatype Option<+T> = None | Some(value: T)

  newtype Byte = x: int | 0 <= x < 256

  type Bytes = seq<Byte>

  function Min(a: int, b: int): int { if a < b then a else b }

  function Max(a: int, b: int): int { if a < b then b else a }

  lemma SliceJoin<T>(s: seq<T>, a: nat, b: nat, c: nat)
    requires a <= b <= c <= |s|
    ensures s[a..b] + s[b..c] == s[a..c]
  {
  }

  lemma SliceOfDrop<T>(s: seq<T>, d: nat, a: nat, b: nat)
    requires d <= |s| && a <= b <= |s| - d
    ensures s[d..][a..b] == s[d + a..d + b]
  {
  }

  lemma TimesNext(k: int, n: int)
    ensures (k + 1) * n == k * n + n
  {
  }

  lemma TimesOrder(a: int, b: int, p: int)
    requires a <= b && 0 <= p
    ensures a * p <= b * p
  {
  }

  // Remainders by a variable divisor.

  lemma ModStep(a: int, c: int)
    requires c >= 1
    ensures (a - c) % c == a % c
  {
    var q, r := a / c, a % c;
    assert a - c == (q - 1) * c + r by { assert (q - 1) * c == q * c - c; }
    ModIs(a - c, c, q - 1, r);
  }

  lemma ModIs(a: int, c: int, q: int, r: int)
    requires c >= 1 && a == q * c + r && 0 <= r < c
    ensures a % c == r && a / c == q
  {
    var d := a / c - q;
    assert d * c == (a / c) * c - q * c;
    ScaledAtLeast(d, c);
  }

  lemma ScaledAtLeast(d: int, c: int)
    requires c >= 1
    ensures d >= 1 ==> d * c >= c
    ensures d <= -1 ==> d * c <= -c
  {
  }

  // Sequences of pieces.

  function Flatten(pieces: seq<Bytes>): Bytes {
    if pieces == [] then [] else pieces[0] + Flatten(pieces[1..])
  }

  lemma FlattenCons(x: Bytes, p: seq<Bytes>)
    ensures Flatten([x] + p) == x + Flatten(p)
  {
    assert ([x] + p)[1..] == p;
  }

  lemma {:induction false} FlattenSnoc(p: seq<Bytes>, x: Bytes)
    ensures Flatten(p + [x]) == Flatten(p) + x
    decreases |p|
  {
    if p == [] {
      assert p + [x] == [x] + [];
      FlattenCons(x, []);
    } else {
      FlattenSnoc(p[1..], x);
      FlattenCons(p[0], p[1..] + [x]);
      assert [p[0]] + (p[1..] + [x]) == p + [x];
      assert p[0] + (Flatten(p[1..]) + x) == Flatten(p) + x;
    }
  }

  /** n is one of 0, c, 2 * c and so on. */
  predicate IsMultiple(n: int, c: int)
    requires c > 0
    decreases n
  {
    if n <= 0 then n == 0 else IsMultiple(n - c, c)
  }

  lemma {:induction false} MultipleIff(n: nat, c: int)
    requires c > 0
    ensures IsMultiple(n, c) <==> n % c == 0
    decreases n
  {
    if n >= c {
      MultipleIff(n - c, c);
      if n > c { ModStep(n, c); }
    } else if n > 0 {
      assert n % c == n;
    }
  }
}
