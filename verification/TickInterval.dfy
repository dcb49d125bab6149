/** The tick of a source's loop: the greatest common divisor of its metric intervals. */
module TickInterval {

  /** Go's remainder: the sign follows the dividend. */
  function GoMod(a: int, b: int): (r: int)
    requires b != 0
    ensures 0 - Abs(b) < r < Abs(b)
    ensures a >= 0 ==> r >= 0
  {
    if a >= 0 then a % b else -((-a) % b)
  }

  function Abs(a: int): nat {
    if a < 0 then -a else a
  }

  ghost predicate Divides(d: int, n: int) {
    exists k :: n == d * k
  }

  lemma {:induction false} DividesCombination(d: int, a: int, b: int, q: int)
    requires Divides(d, a) && Divides(d, b)
    ensures Divides(d, a + q * b)
  {
    var i :| a == d * i;
    var j :| b == d * j;
    Combined(d, i, j, q);
    assert a + q * b == d * (i + q * j);
  }

  lemma {:induction false} Combined(d: int, i: int, j: int, q: int)
    ensures d * i + q * (d * j) == d * (i + q * j)
  {
    assert q * (d * j) == d * (q * j);
    assert d * i + d * (q * j) == d * (i + q * j);
  }

  lemma {:induction false} GoModQuotient(a: int, b: int) returns (q: int)
    requires b != 0
    ensures a == GoMod(a, b) + q * b
  {
    q := if a >= 0 then a / b else -((-a) / b);
  }

  lemma {:induction false} Negated(q: int, v: int)
    ensures (-q) * v == -(q * v)
  {
  }

  /** A step of Euclid's algorithm keeps the common divisors. */
  lemma {:induction false} EuclidStep(d: int, g: int, v: int)
    requires v != 0
    ensures Divides(d, g) && Divides(d, v) <==> Divides(d, v) && Divides(d, GoMod(g, v))
  {
    hide Divides, GoMod;
    var q := GoModQuotient(g, v);
    if Divides(d, g) && Divides(d, v) {
      DividesCombination(d, g, v, -q);
      Negated(q, v);
    }
    if Divides(d, v) && Divides(d, GoMod(g, v)) {
      DividesCombination(d, GoMod(g, v), v, q);
    }
  }

  ghost predicate DividesAll(d: int, vals: seq<int>) {
    forall i :: 0 <= i < |vals| ==> Divides(d, vals[i])
  }

  /** `g` is a greatest common divisor: it has exactly the common divisors as divisors. */
  ghost predicate IsGcd(g: int, vals: seq<int>) {
    forall d :: Divides(d, g) <==> DividesAll(d, vals)
  }

  ghost predicate SameDivisors(g: int, v: int, g': int, v': int) {
    forall d :: Divides(d, g) && Divides(d, v) <==> Divides(d, g') && Divides(d, v')
  }

  /** The inner loop of GCDSlice. */
  method GcdPair(a: int, b: int) returns (g: int)
    ensures SameDivisors(a, b, g, 0)
    ensures a > 0 && b > 0 ==> g > 0
  {
    g := a;
    var v := b;
    while v != 0
      invariant SameDivisors(a, b, g, v)
      invariant a > 0 && b > 0 ==> g > 0 && v >= 0
      decreases Abs(v)
    {
      forall d ensures Divides(d, g) && Divides(d, v) <==> Divides(d, v) && Divides(d, GoMod(g, v)) {
        EuclidStep(d, g, v);
      }
      hide Divides;
      g, v := v, GoMod(g, v);
    }
  }

  lemma {:induction false} DividesZero(d: int)
    ensures Divides(d, 0)
  {
    assert 0 == d * 0;
  }

  lemma {:induction false} GcdAppend(g: int, vals: seq<int>, v: int, g': int)
    requires IsGcd(g, vals) && SameDivisors(g, v, g', 0)
    ensures IsGcd(g', vals + [v])
  {
    forall d ensures Divides(d, g') <==> DividesAll(d, vals + [v]) {
      DividesZero(d);
      hide Divides;
      assert DividesAll(d, vals + [v]) <==> DividesAll(d, vals) && Divides(d, v) by {
        assert (vals + [v])[|vals|] == v;
        assert forall i :: 0 <= i < |vals| ==> (vals + [v])[i] == vals[i];
      }
    }
  }

  method GCDSlice(vals: seq<int>) returns (g: int)
    ensures vals == [] ==> g == 0
    ensures vals != [] ==> IsGcd(g, vals)
    ensures vals != [] && (forall i :: 0 <= i < |vals| ==> vals[i] > 0) ==> g > 0
  {
    if |vals| == 0 {
      return 0;
    }
    hide Divides;
    g := vals[0];
    assert IsGcd(g, vals[..1]);
    for i := 1 to |vals|
      invariant IsGcd(g, vals[..i])
      invariant (forall k :: 0 <= k < |vals| ==> vals[k] > 0) ==> g > 0
    {
      var g' := GcdPair(g, vals[i]);
      GcdAppend(g, vals[..i], vals[i], g');
      assert vals[..i + 1] == vals[..i] + [vals[i]];
      g := g';
    }
    assert vals[..|vals|] == vals;
  }

  const MIN_TICK_INTERVAL := 1

  function Max(a: int, b: int): int {
    if a >= b then a else b
  }

  lemma {:induction false} NoMultipleBetween(g: int, m: int)
    requires 0 <= g * m < g
    ensures m == 0
  {
    Monotone(g, 1, m);
    Monotone(g, m, -1);
  }

  lemma {:induction false} Monotone(g: int, a: int, b: int)
    requires g >= 0
    ensures a <= b ==> g * a <= g * b
  {
  }

  lemma {:induction false} DividesMod(g: int, n: int)
    requires g > 0 && Divides(g, n)
    ensures n % g == 0
  {
    var k :| n == g * k;
    assert n == g * (n / g) + n % g;
    assert g * (k - n / g) == n % g;
    NoMultipleBetween(g, k - n / g);
  }

  ghost predicate IntervalOf(active: map<string, int>, v: int) {
    exists n :: n in active && v == Max(active[n], MIN_TICK_INTERVAL)
  }

  ghost predicate DividesIntervals(d: int, active: map<string, int>) {
    forall n :: n in active ==> Divides(d, Max(active[n], MIN_TICK_INTERVAL))
  }

  /** The tick: the greatest common divisor of the floored intervals, or the floor when there are none. */
  ghost predicate IsTick(active: map<string, int>, g: int) {
    && g >= MIN_TICK_INTERVAL
    && (active == map[] ==> g == MIN_TICK_INTERVAL)
    && (active != map[] ==> forall d :: Divides(d, g) <==> DividesIntervals(d, active))
  }

  /** calcTickInterval, over the intervals in any order. */
  method CalcTickInterval(active: map<string, int>) returns (g: int)
    ensures IsTick(active, g)
  {
    var intervals, todo := [], active.Keys;
    while todo != {}
      invariant todo <= active.Keys
      invariant forall i :: 0 <= i < |intervals| ==> IntervalOf(active, intervals[i])
      invariant forall n :: n in active && n !in todo ==> Max(active[n], MIN_TICK_INTERVAL) in intervals
      decreases |todo|
    {
      var n :| n in todo;
      intervals, todo := intervals + [Max(active[n], MIN_TICK_INTERVAL)], todo - {n};
    }
    var gcd := GCDSlice(intervals);
    g := Max(gcd, MIN_TICK_INTERVAL);
    hide GoMod;
    TickFromGcd(active, intervals, gcd, g);
  }

  lemma {:induction false} EmptyHasNone(active: map<string, int>, intervals: seq<int>, n: string)
    requires forall n :: n in active ==> Max(active[n], MIN_TICK_INTERVAL) in intervals
    ensures n in active ==> intervals != []
  {
  }

  lemma {:induction false} TickFromGcd(active: map<string, int>, intervals: seq<int>, gcd: int, g: int)
    requires forall i :: 0 <= i < |intervals| ==> IntervalOf(active, intervals[i])
    requires forall n :: n in active ==> Max(active[n], MIN_TICK_INTERVAL) in intervals
    requires intervals == [] ==> gcd == 0
    requires intervals != [] ==> IsGcd(gcd, intervals) && gcd > 0
    requires g == Max(gcd, MIN_TICK_INTERVAL)
    ensures IsTick(active, g)
  {
    hide Divides;
    if intervals != [] {
      assert IntervalOf(active, intervals[0]);
      forall d ensures DividesAll(d, intervals) <==> DividesIntervals(d, active) {
        if DividesAll(d, intervals) {
          forall n | n in active ensures Divides(d, Max(active[n], MIN_TICK_INTERVAL)) {
            var i :| 0 <= i < |intervals| && intervals[i] == Max(active[n], MIN_TICK_INTERVAL);
          }
        }
      }
    } else {
      assert active.Keys == {} by {
        forall n | n in active.Keys ensures false {
          EmptyHasNone(active, intervals, n);
        }
      }
    }
  }

  /** Every positive interval is a whole number of ticks. */
  lemma {:induction false} IntervalsAreTicks(active: map<string, int>, g: int, n: string)
    requires IsTick(active, g) && n in active && active[n] > 0
    ensures active[n] % g == 0
  {
    assert Divides(g, g) by { assert g == g * 1; }
    assert DividesIntervals(g, active);
    DividesMod(g, active[n]);
  }

  /** The tick is as long as can be: no longer time divides all intervals; an interval below the floor makes it one second. */
  lemma {:induction false} TickIsGreatest(active: map<string, int>, g: int, d: int)
    requires IsTick(active, g) && active != map[]
    requires d > 0 && forall n :: n in active ==> active[n] > 0 && active[n] % d == 0
    ensures d <= g
  {
    forall n | n in active ensures Divides(d, Max(active[n], MIN_TICK_INTERVAL)) {
      assert active[n] == d * (active[n] / d);
    }
    assert DividesIntervals(d, active);
    DividesLe(d, g);
  }

  lemma {:induction false} TickAtFloor(active: map<string, int>, g: int, n: string)
    requires IsTick(active, g) && n in active && active[n] <= 1
    ensures g == 1
  {
    assert Divides(g, g) by { assert g == g * 1; }
    assert DividesIntervals(g, active);
    DividesLe(g, 1);
  }

  lemma {:induction false} DividesLe(a: int, b: int)
    requires a > 0 && b > 0 && Divides(a, b)
    ensures a <= b
  {
    var k :| b == a * k;
    Monotone(a, k, 0);
    Monotone(a, 1, k);
  }

  /** There is only one tick, so computing it again gives the same one. */
  lemma {:induction false} TickUnique(active: map<string, int>, g: int, g': int)
    requires IsTick(active, g) && IsTick(active, g')
    ensures g == g'
  {
    if active != map[] {
      assert Divides(g, g) by { assert g == g * 1; }
      assert Divides(g', g') by { assert g' == g' * 1; }
      assert DividesIntervals(g, active) && DividesIntervals(g', active);
      DividesLe(g, g');
      DividesLe(g', g);
    }
  }
}
