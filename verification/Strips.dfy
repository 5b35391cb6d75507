/** Building reel strips: spreading equal symbols apart without changing how often they occur. */
module Strips {
  type Symbol = int

  const STRIDE: nat := 7

  /** Where the i-th cell of the spread strip is read from. */
  function Source(offset: nat, i: nat, n: nat): nat
    requires n > 0
  {
    (offset + STRIDE * i) % n
  }

  /** Reads the strip in strides of seven, starting at the offset. */
  method Interleave(s: seq<Symbol>, offset: nat) returns (out: seq<Symbol>)
    requires s != []
    ensures out == Spread(s, offset)
    ensures |out| == |s| && forall i :: 0 <= i < |s| ==> out[i] == s[(offset + 7 * i) % |s|]
    ensures |s| % STRIDE != 0 ==> multiset(out) == multiset(s)
  {
    var n := |s|;
    out := [];
    var idx := offset % n;
    for i := 0 to n
      invariant |out| == i && idx == Source(offset, i, n)
      invariant forall k: nat :: k < i ==> out[k] == s[Source(offset, k, n)]
    {
      out := out + [s[idx]];
      NextSource(offset, i, n);
      idx := (idx + STRIDE) % n;
    }
    if n % STRIDE != 0 { SpreadIsPermutation(s, offset); }
    assert out == Spread(s, offset);
  }

  lemma NextSource(offset: nat, i: nat, n: nat)
    requires n > 0
    ensures Source(offset, i + 1, n) == (Source(offset, i, n) + STRIDE) % n
  {
    AddMod(offset + STRIDE * i, STRIDE, n);
  }

  lemma ShiftMod(x: int, k: int, n: nat)
    requires n > 0
    ensures (x + n * k) % n == x % n
  {
    DivisionUnique(x + n * k, x / n + k, x % n, n);
  }

  lemma AddMod(x: int, d: int, n: nat)
    requires n > 0
    ensures (x + d) % n == (x % n + d) % n
  {
    ShiftMod(x % n + d, x / n, n);
  }

  /** A multiple of n strictly between -n and n is zero. */
  lemma SmallMultiple(n: int, d: int)
    requires 0 < n && -n < n * d < n
    ensures d == 0
  {
    assert d >= 1 ==> n * d >= n;
    assert d <= -1 ==> n * d <= -n;
  }

  lemma DivisionUnique(x: int, q: int, r: int, n: nat)
    requires n > 0 && 0 <= r < n && x == n * q + r
    ensures x / n == q && x % n == r
  {
    var d := x / n - q;
    assert n * d == r - x % n;
    SmallMultiple(n, d);
  }

  // ------------------------------------------------------------------------------------
  // Every cell is read once when the stride does not divide the length
  // ------------------------------------------------------------------------------------

  lemma ResiduesOfSeven(r: int, t: int)
    requires 0 < r < 7 && 0 <= t < 7 && (r * t) % 7 == 0
    ensures t == 0
  {
    if r == 1 || r == 2 || r == 3 { } else if r == 4 || r == 5 { } else { assert r == 6; }
  }

  lemma SevenIsPrime(n: int, k: int)
    requires n % 7 != 0 && (n * k) % 7 == 0
    ensures k % 7 == 0
  {
    var a, r, b, t := n / 7, n % 7, k / 7, k % 7;
    Expand(a, r, b, t);
    ShiftMod(r * t, 7 * a * b + a * t + r * b, 7);
    ResiduesOfSeven(r, t);
  }

  lemma Expand(a: int, r: int, b: int, t: int)
    ensures (7 * a + r) * (7 * b + t) == 7 * (7 * a * b + a * t + r * b) + r * t
  {
  }

  lemma SourcesDiffer(offset: nat, i: nat, j: nat, n: nat)
    requires n % 7 != 0 && i < j < n
    ensures Source(offset, i, n) != Source(offset, j, n)
  {
    var x, y := offset + STRIDE * i, offset + STRIDE * j;
    if x % n == y % n {
      var k := y / n - x / n;
      assert n * k == 7 * (j - i);
      SevenIsPrime(n, k);
      Sevenfold(n, k / 7);
      SmallMultiple(n, k / 7);
    }
  }

  lemma Sevenfold(n: int, m: int)
    ensures n * (7 * m) == 7 * (n * m)
  {
  }

  function Positions(s: seq<Symbol>, v: Symbol): set<nat> {
    set i: nat | i < |s| && s[i] == v
  }

  lemma {:induction false} CountIsPositions(s: seq<Symbol>, v: Symbol)
    ensures multiset(s)[v] == |Positions(s, v)|
  {
    if s != [] {
      var n := |s| - 1;
      CountIsPositions(s[..n], v);
      assert s == s[..n] + [s[n]];
      assert Positions(s, v) == Positions(s[..n], v) + if s[n] == v then {n} else {};
    }
  }

  /** A one-to-one image inside b shows that a is no larger than b. */
  lemma {:induction false} OneToOneFits(a: set<nat>, b: set<nat>, f: nat -> nat)
    requires forall x <- a :: f(x) in b
    requires forall x <- a, y <- a :: x != y ==> f(x) != f(y)
    ensures |a| <= |b|
  {
    if a != {} {
      var x :| x in a;
      OneToOneFits(a - {x}, b - {f(x)}, f);
    }
  }

  /** The strip that the method returns. */
  function Spread(s: seq<Symbol>, offset: nat): (out: seq<Symbol>)
    requires s != []
    ensures |out| == |s|
  {
    seq(|s|, i requires 0 <= i < |s| => s[Source(offset, i, |s|)])
  }

  lemma SpreadCountsAtMost(s: seq<Symbol>, offset: nat, v: Symbol)
    requires |s| % STRIDE != 0
    ensures multiset(Spread(s, offset))[v] <= multiset(s)[v]
  {
    var n := |s|;
    var out := Spread(s, offset);
    var f := (i: nat) => Source(offset, i, n);
    CountIsPositions(out, v);
    CountIsPositions(s, v);
    var a, b := Positions(out, v), Positions(s, v);
    forall x, y | x in a && y in a && x != y ensures f(x) != f(y) {
      if x < y { SourcesDiffer(offset, x, y, n); } else { SourcesDiffer(offset, y, x, n); }
    }
    OneToOneFits(a, b, f);
  }

  lemma SpreadIsPermutation(s: seq<Symbol>, offset: nat)
    requires |s| % STRIDE != 0
    ensures multiset(Spread(s, offset)) == multiset(s)
  {
    var out := Spread(s, offset);
    forall v: Symbol ensures multiset(out)[v] <= multiset(s)[v] { SpreadCountsAtMost(s, offset, v); }
    assert multiset(s) == multiset(out) + (multiset(s) - multiset(out));
    assert |multiset(s) - multiset(out)| == 0;
  }

  // ------------------------------------------------------------------------------------
  // Six cells in seven are lost when it does
  // ------------------------------------------------------------------------------------

  /** Positions keep their residue when the length is a multiple of the stride. */
  lemma SourceKeepsResidue(offset: nat, i: nat, n: nat)
    requires n > 0 && n % 7 == 0
    ensures Source(offset, i, n) % 7 == offset % 7
  {
    var x := offset + 7 * i;
    var q := x / n;
    assert x % n == offset + 7 * i - n * q;
    assert n * q == 7 * (n / 7 * q);
    ShiftMod(offset, i - n / 7 * q, 7);
  }

  /** A strip with one special cell, which is never read. */
  lemma SpreadLosesACell(n: nat, offset: nat) returns (s: seq<Symbol>)
    requires n > 0 && n % 7 == 0
    ensures |s| == n && multiset(Spread(s, offset)) != multiset(s)
  {
    var lost := (offset + 1) % 7;
    assert lost < 7 <= n && lost != offset % 7;
    s := seq(n, i => if i == lost then 1 else 0);
    var out := Spread(s, offset);
    forall i | 0 <= i < n ensures out[i] == 0 {
      SourceKeepsResidue(offset, i, n);
    }
    assert s[lost] == 1;
    assert 1 in multiset(s) && 1 !in multiset(out);
  }

  /** For a length and an offset, every strip keeps its symbol counts exactly when the length
      is not a multiple of the stride. */
  lemma SpreadKeepsCountsExactly(n: nat, offset: nat)
    requires n > 0
    ensures (forall s: seq<Symbol> :: |s| == n ==> multiset(Spread(s, offset)) == multiset(s)) <==> n % STRIDE != 0
  {
    if n % STRIDE == 0 {
      var s := SpreadLosesACell(n, offset);
    } else {
      forall s: seq<Symbol> | |s| == n ensures multiset(Spread(s, offset)) == multiset(s) {
        SpreadIsPermutation(s, offset);
      }
    }
  }
}
