/** The index arithmetic of `PersistentFor`: which coordinates iteration (wave, index) visits. */
module PersistentFor {
  import opened Arith

  // ---------------------------------------------------------------- mixed-radix digits

  predicate Positive(g: seq<nat>) {
    forall i :: 0 <= i < |g| ==> g[i] >= 1
  }

  /** Digits of x for radices g; the first digit is not reduced. */
  function Digits(x: nat, g: seq<nat>): (d: seq<nat>)
    requires |g| >= 1 && Positive(g)
    ensures |d| == |g|
    decreases |g|
  {
    var k := |g| - 1;
    if k == 0 then [x] else Digits(x / g[k], g[..k]) + [x % g[k]]
  }

  function ValueOf(d: seq<nat>, g: seq<nat>): nat
    requires |d| == |g| >= 1
    decreases |g|
  {
    var k := |g| - 1;
    if k == 0 then d[0] else ValueOf(d[..k], g[..k]) * g[k] + d[k]
  }

  predicate Reduced(d: seq<nat>, g: seq<nat>)
    requires |d| == |g|
  {
    forall i :: 1 <= i < |g| ==> d[i] < g[i]
  }

  lemma {:induction false} DigitsRoundTrip(x: nat, g: seq<nat>)
    requires |g| >= 1 && Positive(g)
    ensures ValueOf(Digits(x, g), g) == x && Reduced(Digits(x, g), g)
    decreases |g|
  {
    var k := |g| - 1;
    if k > 0 {
      DigitsRoundTrip(x / g[k], g[..k]);
      var d := Digits(x, g);
      assert d[..k] == Digits(x / g[k], g[..k]);
      forall i | 1 <= i < |g| ensures d[i] < g[i] {
        if i < k { assert d[i] == d[..k][i] && g[i] == g[..k][i]; }
      }
    }
  }

  lemma {:induction false} ValueRoundTrip(d: seq<nat>, g: seq<nat>)
    requires |d| == |g| >= 1 && Positive(g) && Reduced(d, g)
    ensures Digits(ValueOf(d, g), g) == d
    decreases |g|
  {
    var k := |g| - 1;
    if k > 0 {
      ValueRoundTrip(d[..k], g[..k]);
      DivModUnique(ValueOf(d, g), g[k], ValueOf(d[..k], g[..k]), d[k]);
      assert d == d[..k] + [d[k]];
    } else {
      assert d == [d[0]];
    }
  }

  function Product(s: seq<nat>): nat {
    if s == [] then 1 else Product(s[..|s| - 1]) * s[|s| - 1]
  }

  lemma {:induction false} ProductPositive(s: seq<nat>)
    requires Positive(s)
    ensures Product(s) >= 1
  {
    if s != [] {
      ProductPositive(s[..|s| - 1]);
      Multiple(Product(s[..|s| - 1]), s[|s| - 1]);
    }
  }

  lemma DivDiv(x: nat, a: nat, b: nat)
    requires a >= 1 && b >= 1
    ensures a * b >= 1 && x / a / b == x / (a * b)
  {
    var q, r := x / a, x % a;
    var q', r' := q / b, q % b;
    assert x == (q' * b + r') * a + r;
    assert (q' * b + r') * a + r == q' * (a * b) + (r' * a + r);
    assert 0 <= r' * a + r < a * b by {
      Multiple(b - r', a);
      assert (b - r') * a == a * b - r' * a;
    }
    DivModUnique(x, a * b, q', r' * a + r);
  }

  /** The unreduced digit is the quotient by all the other radices. */
  lemma {:induction false} FirstDigit(x: nat, g: seq<nat>)
    requires |g| >= 1 && Positive(g)
    ensures Product(g[1..]) >= 1 && Digits(x, g)[0] == x / Product(g[1..])
    decreases |g|
  {
    var k := |g| - 1;
    ProductPositive(g[1..]);
    if k > 0 {
      FirstDigit(x / g[k], g[..k]);
      assert g[..k][1..] == g[1..][..k - 1];
      DivDiv(x, g[k], Product(g[1..][..k - 1]));
      assert g[k] * Product(g[1..][..k - 1]) == Product(g[1..]);
    } else {
      assert g[1..] == [];
    }
  }

  // ---------------------------------------------------------------- the loop nest

  datatype Loop = Loop(domain: seq<nat>, waveSize: nat, groupSize: nat, guarded: bool)

  predicate Valid(l: Loop) {
    |l.domain| >= 1 && Positive(l.domain) && l.waveSize >= 1 && l.groupSize >= 1
  }

  function Last(l: Loop): nat requires Valid(l) { l.domain[|l.domain| - 1] }
  function Others(l: Loop): seq<nat> requires Valid(l) { l.domain[..|l.domain| - 1] }

  /** The group size is clamped to the last extent. */
  function Group(l: Loop): (gs: nat)
    requires Valid(l)
    ensures 1 <= gs <= Last(l)
  {
    if l.groupSize < Last(l) then l.groupSize else Last(l)
  }

  function Radices(l: Loop): (g: seq<nat>)
    requires Valid(l)
    ensures |g| == |l.domain| + 1 && Positive(g)
  {
    assert Last(l) / Group(l) >= 1 by { Multiple(1 - Last(l) / Group(l), Group(l)); }
    [Last(l) / Group(l)] + Others(l) + [Group(l)]
  }

  function Size(l: Loop): nat requires Valid(l) { Product(l.domain) }
  function Waves(l: Loop): int requires Valid(l) { CeilDiv(Size(l), l.waveSize) }

  /** Digits of the linear index, last radix first, as the loop over `grouped_domain` peels them off. */
  method Decompose(l: Loop, x: nat) returns (idxs: seq<nat>)
    requires Valid(l)
    ensures idxs == Digits(x, Radices(l))
  {
    hide Digits, Radices, Valid;
    var grouped := Radices(l);
    ghost var d := Digits(x, grouped);
    idxs := seq(|grouped|, _ => 0);
    var rem, i := x, |grouped| - 1;
    assert grouped[..i + 1] == grouped && d[..i + 1] == d;
    while i >= 1
      invariant 0 <= i < |grouped| == |idxs|
      invariant Digits(rem, grouped[..i + 1]) == d[..i + 1]
      invariant forall j :: i < j < |idxs| ==> idxs[j] == d[j]
    {
      Peel(rem, grouped, i, d);
      idxs := idxs[i := rem % grouped[i]];
      rem := rem / grouped[i];
      i := i - 1;
    }
    OneDigit(rem, grouped[..1]);
    idxs := idxs[0 := rem];
  }

  lemma Peel(x: nat, g: seq<nat>, i: nat, d: seq<nat>)
    requires 1 <= i < |g| == |d| && Positive(g) && Digits(x, g[..i + 1]) == d[..i + 1]
    ensures Digits(x / g[i], g[..i]) == d[..i] && x % g[i] == d[i]
  {
    assert g[..i + 1][..i] == g[..i] && g[..i + 1][i] == g[i];
    var e := Digits(x / g[i], g[..i]);
    assert d[..i + 1] == e + [x % g[i]];
    assert d[..i] == d[..i + 1][..i] == e;
  }

  lemma OneDigit(x: nat, g: seq<nat>)
    requires |g| == 1 && Positive(g)
    ensures Digits(x, g) == [x]
  {
  }

  /** Coordinates bound to the loop variables. */
  function Coords(l: Loop, x: nat): (v: seq<nat>)
    requires Valid(l)
    ensures |v| == |l.domain|
  {
    var d, n := Digits(x, Radices(l)), |l.domain|;
    d[1..n] + [d[0] * Group(l) + d[n]]
  }

  function IndexOf(l: Loop, v: seq<nat>): nat
    requires Valid(l) && |v| == |l.domain|
  {
    var n := |l.domain| - 1;
    ValueOf([v[n] / Group(l)] + v[..n] + [v[n] % Group(l)], Radices(l))
  }

  predicate InDomain(l: Loop, v: seq<nat>)
    requires Valid(l) && |v| == |l.domain|
  {
    forall i :: 0 <= i < |v| ==> v[i] < l.domain[i]
  }

  /** All coordinates but the last lie in range for every index ... */
  lemma CoordsRoundTrip(l: Loop, x: nat)
    requires Valid(l)
    ensures IndexOf(l, Coords(l, x)) == x
    ensures forall i :: 0 <= i < |l.domain| - 1 ==> Coords(l, x)[i] < l.domain[i]
  {
    var g, n := Radices(l), |l.domain|;
    var d, v := Digits(x, g), Coords(l, x);
    DigitsRoundTrip(x, g);
    DivModUnique(v[n - 1], Group(l), d[0], d[n]);
    assert [d[0]] + d[1..n] + [d[n]] == d;
    assert v[..n - 1] == d[1..n];
    forall i | 0 <= i < n - 1 ensures v[i] < l.domain[i] {
      assert v[i] == d[i + 1] && g[i + 1] == l.domain[i];
    }
  }

  /** ... and every coordinate vector with those in range has exactly one index. */
  lemma IndexRoundTrip(l: Loop, v: seq<nat>)
    requires Valid(l) && |v| == |l.domain| && forall i :: 0 <= i < |v| - 1 ==> v[i] < l.domain[i]
    ensures Coords(l, IndexOf(l, v)) == v
  {
    var n, a, b := |l.domain| - 1, v[|v| - 1] / Group(l), v[|v| - 1] % Group(l);
    var d := [a] + v[..n] + [b];
    assert a * Group(l) + b == v[n];
    var g := Radices(l);
    forall i | 1 <= i < |g| ensures d[i] < g[i] {
      if i <= n { assert d[i] == v[i - 1] && g[i] == l.domain[i - 1]; }
    }
    FromDigits(l, d);
    assert d[1..n + 1] == v[..n];
    assert v == v[..n] + [v[n]];
  }

  lemma FromDigits(l: Loop, d: seq<nat>)
    requires Valid(l) && |d| == |l.domain| + 1 && Reduced(d, Radices(l))
    ensures Coords(l, ValueOf(d, Radices(l))) == d[1..|d| - 1] + [d[0] * Group(l) + d[|d| - 1]]
  {
    hide Digits, ValueOf, Radices, Group;
    ValueRoundTrip(d, Radices(l));
  }

  /** Number of coordinate vectors without the last extent. */
  function Rest(l: Loop): (q: nat)
    requires Valid(l)
    ensures q >= 1 && Size(l) == q * Last(l)
  {
    ProductPositive(Others(l));
    Product(Others(l))
  }

  lemma LastCoord(l: Loop, x: nat)
    requires Valid(l)
    ensures Rest(l) * Group(l) >= 1
    ensures Coords(l, x)[|l.domain| - 1] == x / (Rest(l) * Group(l)) * Group(l) + x % Group(l)
  {
    var g, n := Radices(l), |l.domain|;
    FirstDigit(x, g);
    assert g[1..][..n - 1] == Others(l) && g[1..][n - 1] == Group(l);
    assert Product(g[1..]) == Rest(l) * Group(l);
    assert g[n] == Group(l);
  }

  /** The linear index of lane i in wave w. */
  function Linear(l: Loop, w: nat, i: nat): (x: nat)
    ensures x >= i
  {
    w * l.waveSize + i
  }

  lemma LinearUnique(l: Loop, w: nat, i: nat)
    requires Valid(l) && i < l.waveSize
    ensures Linear(l, w, i) / l.waveSize == w && Linear(l, w, i) % l.waveSize == i
  {
    DivModUnique(Linear(l, w, i), l.waveSize, w, i);
  }

  /** Indices visited: all of the launched ones, or those below the size when the break is emitted. */
  predicate Visited(l: Loop, w: nat, i: nat)
    requires Valid(l)
  {
    w < Waves(l) && i < l.waveSize && (l.guarded ==> Linear(l, w, i) < Size(l))
  }

  /** Every visited iteration lies in the domain, and every point of it has exactly one. */
  ghost predicate ExactCover(l: Loop)
    requires Valid(l)
  {
    && (forall w: nat, i: nat :: Visited(l, w, i) ==> InDomain(l, Coords(l, Linear(l, w, i))))
    && (forall v :: |v| == |l.domain| && InDomain(l, v) ==> Hit(l, v))
    && (forall w: nat, i: nat, w': nat, i': nat ::
          Visited(l, w, i) && Visited(l, w', i') && Coords(l, Linear(l, w, i)) == Coords(l, Linear(l, w', i')) ==>
          w == w' && i == i')
  }

  ghost predicate Hit(l: Loop, v: seq<nat>)
    requires Valid(l) && |v| == |l.domain|
  {
    exists w: nat, i: nat :: Visited(l, w, i) && Coords(l, Linear(l, w, i)) == v
  }

  /** The guard of the failing families: an uneven last group across several rows, or launched
      indices past the end with no break in the loop. */
  predicate Even(l: Loop)
    requires Valid(l)
  {
    (Last(l) % Group(l) == 0 || Rest(l) == 1) && (l.guarded || Size(l) % l.waveSize == 0)
  }

  lemma LastBelow(x: nat, q: nat, gs: nat, last: nat)
    requires q >= 1 && gs >= 1 && q * gs >= 1 && (last % gs == 0 || q == 1)
    ensures x / (q * gs) * gs + x % gs < last <==> x < q * last
  {
    if q == 1 {
      assert q * gs == gs && q * last == last;
    } else {
      Regroup(q, last / gs, gs);
      EvenLast(x, q * gs, gs, last / gs);
    }
  }

  lemma Regroup(q: nat, f: nat, gs: nat)
    ensures q * (f * gs) == f * (q * gs)
  {
  }

  lemma EvenLast(x: nat, span: nat, gs: nat, f: nat)
    requires span >= 1 && gs >= 1
    ensures x / span * gs + x % gs < f * gs <==> x < f * span
  {
    var y := x / span;
    DivBelow(x, span, f);
    DivModUnique(y * gs + x % gs, gs, y, x % gs);
    DivBelow(y * gs + x % gs, gs, f);
  }

  /** With even groups a coordinate vector is in the domain exactly for indices below the size. */
  lemma InDomainBelowSize(l: Loop, x: nat)
    requires Valid(l) && (Last(l) % Group(l) == 0 || Rest(l) == 1)
    ensures InDomain(l, Coords(l, x)) <==> x < Size(l)
  {
    CoordsRoundTrip(l, x);
    LastCoord(l, x);
    LastBelow(x, Rest(l), Group(l), Last(l));
    var v, n := Coords(l, x), |l.domain| - 1;
    if v[n] < Last(l) {
      forall i | 0 <= i < |v| ensures v[i] < l.domain[i] { }
    }
  }

  lemma LaunchedBelow(l: Loop, w: nat, i: nat)
    requires Valid(l) && Visited(l, w, i) && (l.guarded || Size(l) % l.waveSize == 0)
    ensures Linear(l, w, i) < Size(l)
  {
    if !l.guarded {
      CeilDivExact(Size(l), l.waveSize);
      Multiple(Waves(l) - w, l.waveSize);
      assert (Waves(l) - w) * l.waveSize == Waves(l) * l.waveSize - w * l.waveSize;
    }
  }

  lemma SlotVisited(l: Loop, x: nat)
    requires Valid(l) && x < Size(l)
    ensures Visited(l, x / l.waveSize, x % l.waveSize)
    ensures Linear(l, x / l.waveSize, x % l.waveSize) == x
  {
    BelowCeilDiv(x / l.waveSize, Size(l), l.waveSize);
  }

  /** `PersistentFor` of any rank covers its domain exactly once if and only if the groups are
      even and no launched index runs past the end unguarded. */
  lemma CoverExactlyWhenEven(l: Loop)
    requires Valid(l)
    ensures ExactCover(l) <==> Even(l)
  {
    if Even(l) { EvenCovers(l); }
    if ExactCover(l) { CoverIsEven(l); }
  }

  /** For static shapes the break is emitted exactly with two waves or more. Then what a caller has to check is that
      group_size divides the last extent, or there is one row, and that the domain fills at least one wave. */
  lemma StaticCover(l: Loop)
    requires Valid(l) && (l.guarded <==> Waves(l) >= 2)
    ensures ExactCover(l) <==> (Last(l) % Group(l) == 0 || Rest(l) == 1) && Size(l) >= l.waveSize
  {
    hide ExactCover, CeilDiv, Group, Last, Rest;
    CoverExactlyWhenEven(l);
    ProductPositive(l.domain);
    BelowCeilDiv(1, Size(l), l.waveSize);
    if Size(l) == l.waveSize { DivModUnique(Size(l), l.waveSize, 1, 0); }
    if Size(l) < l.waveSize { DivModUnique(Size(l), l.waveSize, 0, Size(l)); }
  }

  lemma EvenCovers(l: Loop)
    requires Valid(l) && Even(l)
    ensures ExactCover(l)
  {
    hide Coords, Linear, Rest, Group, Size, Last, IndexOf, Waves;
    forall w: nat, i: nat | Visited(l, w, i) ensures InDomain(l, Coords(l, Linear(l, w, i))) {
      LaunchedBelow(l, w, i);
      InDomainBelowSize(l, Linear(l, w, i));
    }
    forall v | |v| == |l.domain| && InDomain(l, v) ensures Hit(l, v) {
      var x := IndexOf(l, v);
      IndexRoundTrip(l, v);
      InDomainBelowSize(l, x);
      SlotVisited(l, x);
      assert Coords(l, Linear(l, x / l.waveSize, x % l.waveSize)) == v;
    }
    forall w: nat, i: nat, w': nat, i': nat |
      Visited(l, w, i) && Visited(l, w', i') && Coords(l, Linear(l, w, i)) == Coords(l, Linear(l, w', i'))
      ensures w == w' && i == i'
    {
      CoordsRoundTrip(l, Linear(l, w, i));
      CoordsRoundTrip(l, Linear(l, w', i'));
      LinearUnique(l, w, i);
      LinearUnique(l, w', i');
    }
  }

  lemma UnevenEscapes(q: nat, gs: nat, last: nat)
    requires q >= 2 && gs >= 1 && q * gs >= 1 && last % gs != 0
    ensures var x := last / gs * (q * gs) + last % gs;
            x < q * last && x / (q * gs) * gs + x % gs == last
  {
    var f, r := last / gs, last % gs;
    var x := f * (q * gs) + r;
    assert q * last == f * (q * gs) + q * r by { assert q * (f * gs + r) == f * (q * gs) + q * r; }
    Multiple(q - 1, r);
    assert (q - 1) * r == q * r - r;
    Multiple(q - 1, gs);
    assert (q - 1) * gs == q * gs - gs;
    DivModUnique(x, q * gs, f, r);
    assert x == (f * q) * gs + r;
    DivModUnique(x, gs, f * q, r);
  }

  lemma CoverIsEven(l: Loop)
    requires Valid(l) && ExactCover(l)
    ensures Even(l)
  {
    hide Coords, Linear, Rest, Group, Size, Last;
    if Last(l) % Group(l) != 0 && Rest(l) >= 2 {
      var x := UnevenWitness(l);
    } else if !l.guarded && Size(l) % l.waveSize != 0 {
      OverrunWitness(l);
    }
  }

  /** With uneven groups across several rows some visited index leaves the domain. */
  lemma UnevenWitness(l: Loop) returns (x: nat)
    requires Valid(l) && Last(l) % Group(l) != 0 && Rest(l) >= 2
    ensures Visited(l, x / l.waveSize, x % l.waveSize) && Linear(l, x / l.waveSize, x % l.waveSize) == x
    ensures !InDomain(l, Coords(l, x))
  {
    var q, gs, last, n := Rest(l), Group(l), Last(l), |l.domain| - 1;
    UnevenEscapes(q, gs, last);
    x := last / gs * (q * gs) + last % gs;
    SlotVisited(l, x);
    LastCoord(l, x);
    assert Coords(l, x)[n] == l.domain[n];
  }

  /** Without the break, the first index past the end is visited. */
  lemma OverrunWitness(l: Loop)
    requires Valid(l) && !l.guarded && Size(l) % l.waveSize != 0
    requires Last(l) % Group(l) == 0 || Rest(l) == 1
    ensures var x := Size(l);
            && Visited(l, x / l.waveSize, x % l.waveSize) && Linear(l, x / l.waveSize, x % l.waveSize) == x
            && !InDomain(l, Coords(l, x))
  {
    var x := Size(l);
    BelowCeilDiv(x / l.waveSize, x, l.waveSize);
    InDomainBelowSize(l, x);
  }
}
