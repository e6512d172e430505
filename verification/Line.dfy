/** Bresenham's line: exactly max(|dx|, |dy|) moves, never off the ideal line by more than half a pixel, and in
    32-bit arithmetic for exactly the distances that are tame. */
module Line {
  import Cyclic

  function Abs(n: int): nat { if n < 0 then -n else n }
  function Max(a: nat, b: nat): nat { if a >= b then a else b }

  /** After i steps in x and j in y: how far the point is from the line of slope b/a, scaled. */
  function Miss(i: nat, j: nat, a: nat, b: nat): int { a * j - b * i }

  /** At most half a pixel off the line; of two points half a pixel off, the one the loop prefers. */
  predicate Close(i: nat, j: nat, a: nat, b: nat) {
    var m := 2 * Miss(i, j, a, b);
    if a >= b then a == 0 || -(a as int) < m <= a else -(b as int) <= m < b
  }

  lemma MissStep(i: nat, j: nat, a: nat, b: nat)
    ensures Miss(i + 1, j, a, b) == Miss(i, j, a, b) - b
    ensures Miss(i, j + 1, a, b) == Miss(i, j, a, b) + a
    ensures Miss(i + 1, j + 1, a, b) == Miss(i, j, a, b) + a - b
  {}

  /** Close to the line and within one axis means within the other, and at its end at the end of both. */
  lemma CloseBounds(i: nat, j: nat, a: nat, b: nat)
    requires Close(i, j, a, b) && Max(a, b) > 0
    ensures a >= b && i <= a ==> j <= b && (i == a ==> j == b)
    ensures b >= a && j <= b ==> i <= a && (j == b ==> i == a)
  {
    if a >= b && i <= a { MinorBound(i, j, a, b); }
    if b >= a && j <= b { MinorBound(j, i, b, a); }
  }

  lemma MinorBound(i: nat, j: nat, a: nat, b: nat)
    requires 0 < a && b <= a && i <= a && 2 * (a * j - b * i) <= a && -(a as int) <= 2 * (a * j - b * i)
    ensures j <= b && (i == a ==> j == b)
  {
    var d := j - b;
    assert a * d == a * j - a * b;
    Product(b, i, a);
    Cyclic.Times(a, d);
  }

  lemma Product(a: nat, x: nat, y: nat)
    requires x <= y
    ensures a * x <= a * y
  {}

  // ----- the loop -----

  /** The steps taken so far, one pair of counts for every point drawn. */
  type Path = seq<(nat, nat)>

  predicate OneMove(p: (nat, nat), q: (nat, nat), a: nat, b: nat) {
    && p.0 <= q.0 <= p.0 + 1 && p.1 <= q.1 <= p.1 + 1
    && (a >= b ==> q.0 == p.0 + 1) && (b >= a ==> q.1 == p.1 + 1)
  }

  /** A path from the start: single moves along the longer axis, every point close to the line and within the box. */
  predicate Proper(path: Path, a: nat, b: nat) {
    && |path| > 0 && path[0] == (0, 0)
    && (forall k :: 0 <= k < |path| ==> path[k].0 <= a && path[k].1 <= b && Close(path[k].0, path[k].1, a, b))
    && (forall k :: 0 <= k < |path| - 1 ==> OneMove(path[k], path[k + 1], a, b))
  }

  /** i steps on the way. */
  function Along(from: int, to: int, i: nat): int { if from < to then from + i else from - i }

  function PointAt(p: (nat, nat), x0: int, y0: int, x1: int, y1: int): (int, int) {
    (Along(x0, x1, p.0), Along(y0, y1, p.1))
  }

  predicate OnPath(path: Path, x0: int, y0: int, x1: int, y1: int, x: int, y: int) {
    exists k :: 0 <= k < |path| && PointAt(path[k], x0, y0, x1, y1) == (x, y)
  }

  /** The error term at a point. */
  function Err(p: (nat, nat), a: nat, b: nat): int { Miss(p.0, p.1, a, b) + a - b }

  /** The move that the two tests of the loop take. */
  function Next(p: (nat, nat), a: nat, b: nat): (nat, nat) {
    var e2 := 2 * Err(p, a, b);
    (if e2 >= -(b as int) then p.0 + 1 else p.0, if e2 <= a then p.1 + 1 else p.1)
  }

  /** It is the one that stays close. */
  lemma Choice(i: nat, j: nat, a: nat, b: nat)
    requires Close(i, j, a, b) && Max(a, b) > 0
    ensures var err, (i', j') := Err((i, j), a, b), Next((i, j), a, b);
            && Close(i', j', a, b) && OneMove((i, j), (i', j'), a, b)
            && Err((i', j'), a, b) == err + (if 2 * err >= -(b as int) then -(b as int) else 0)
                                          + (if 2 * err <= a then a else 0)
  {
    MissStep(i, j, a, b);
    hide Miss;
  }

  // ----- 32 bits -----

  const INT32: nat := 0x8000_0000

  predicate Word(v: int) { -(INT32 as int) <= v < INT32 }

  /** The values that one round forms from the error term: its double, and the term after each of its updates. */
  predicate RoundFits(err: int, a: nat, b: nat) {
    var mid := if 2 * err >= -(b as int) then err - b else err;
    Word(2 * err) && Word(mid) && Word(if 2 * err <= a then mid + a else mid)
  }

  /** Every value the loop forms along the path is a 32-bit number. */
  predicate Fits(path: Path, a: nat, b: nat) {
    && Word(a) && Word(b) && Word(a - b)
    && forall k :: 0 <= k < |path| - 1 ==> RoundFits(Err(path[k], a, b), a, b)
  }

  function Gcd(a: nat, b: nat): nat
    decreases b
  {
    if b == 0 then a else Gcd(b, a % b)
  }

  function Mult(g: nat, x: int): int { g * x }

  /** The largest multiple of g up to n / 2, and the largest one below it. */
  function HalfUp(n: nat, g: nat): int
    requires g > 0
  {
    Mult(g, n / g / 2)
  }

  function HalfDown(n: nat, g: nat): int
    requires g > 0
  {
    Mult(g, (n / g - 1) / 2)
  }

  /** How far, at most, a point misses the line on the side that wins a tie, and on the other. */
  function Wide(a: nat, b: nat): int
    requires Max(a, b) > 0
  {
    GcdDivides(a, b);
    HalfUp(Max(a, b), Gcd(a, b))
  }

  function Narrow(a: nat, b: nat): int
    requires Max(a, b) > 0
  {
    GcdDivides(a, b);
    HalfDown(Max(a, b), Gcd(a, b))
  }

  /** Distances for which the loop stays inside 32 bits. */
  predicate Tame(a: nat, b: nat) {
    && a < INT32 && b < INT32
    && if Max(a, b) == 0 then true
       else if a >= b then 2 * (a - b) + 2 * Wide(a, b) < INT32 && 2 * b - a + Narrow(a, b) <= INT32
       else 2 * (b - a) + 2 * Wide(a, b) <= INT32 && (a == 0 || b + Wide(a, b) <= INT32)
  }

  lemma {:induction false} GcdDivides(a: nat, b: nat)
    requires a > 0 || b > 0
    ensures var g := Gcd(a, b); g > 0 && a % g == 0 && b % g == 0 && Max(a, b) >= g && (a > 0 ==> a >= g)
    decreases b
  {
    if b > 0 {
      GcdDivides(b, a % b);
      Remainder(a, b, Gcd(a, b));
      AtLeast(a, Gcd(a, b));
      AtLeast(b, Gcd(a, b));
    } else {
      Cyclic.DivUnique(a, a, 1, 0);
      Cyclic.DivUnique(0, a, 0, 0);
    }
  }

  lemma Quotient(n: nat, g: nat) returns (x: nat)
    requires g > 0 && n % g == 0
    ensures n == Mult(g, x) && x == n / g
  {
    x := n / g;
  }

  lemma Remainder(a: nat, b: nat, g: nat)
    requires b > 0 && g > 0 && b % g == 0 && a % b % g == 0
    ensures a % g == 0
  {
    var x := Quotient(b, g);
    var y := Quotient(a % b, g);
    var q := a / b;
    assert a == b * q + a % b;
    Regroup(g, x, q, y);
    Cyclic.DivUnique(a, g, x * q + y, 0);
  }

  lemma Regroup(g: nat, x: int, q: int, y: int)
    ensures Mult(g, x) * q + Mult(g, y) == g * (x * q + y)
  {
    assert g * x * q == g * (x * q);
  }

  lemma AtLeast(n: nat, g: nat)
    requires g > 0 && n % g == 0
    ensures n > 0 ==> n >= g
  {
    if 0 < n < g { Cyclic.DivUnique(n, g, 0, n); }
  }

  /** The greatest common divisor is a sum of multiples. */
  lemma {:induction false} Bezout(a: nat, b: nat) returns (u: int, v: int)
    ensures a * u + b * v == Gcd(a, b)
    decreases b
  {
    if b == 0 {
      u, v := 1, 0;
    } else {
      var x, y := Bezout(b, a % b);
      var q := a / b;
      u, v := y, x - q * y;
      assert a == b * q + a % b;
      Unfold(a, b, q, a % b, x, y);
    }
  }

  lemma Unfold(a: int, b: int, q: int, r: int, x: int, y: int)
    requires a == b * q + r
    ensures a * y + b * (x - q * y) == b * x + r * y
  {
    assert a * y == b * q * y + r * y;
    assert b * (x - q * y) == b * x - b * (q * y);
    assert b * q * y == b * (q * y);
  }

  /** Some k below m makes n k congruent to any multiple of g. */
  lemma Solve(m: nat, n: nat, u: int, v: int, g: int, q: int) returns (k: nat, j: int)
    requires m > 0 && m * u + n * v == g
    ensures k < m && m * j - n * k == g * q
  {
    var t := -(v * q);
    var c := t / m;
    k := t % m;
    j := u * q - n * c;
    assert t == m * c + k;
    Combine(m, n, u, v, q, c, k);
  }

  lemma Combine(m: int, n: int, u: int, v: int, q: int, c: int, k: int)
    requires -(v * q) == m * c + k
    ensures m * (u * q - n * c) - n * k == (m * u + n * v) * q
  {
    assert n * k == -(n * (v * q)) - n * (m * c) by { assert k == -(v * q) - m * c; Spread(n, v * q, m * c); }
    assert m * (u * q - n * c) == m * (u * q) - m * (n * c);
    assert m * (n * c) == n * (m * c);
    assert (m * u + n * v) * q == m * u * q + n * v * q;
    assert m * u * q == m * (u * q) && n * v * q == n * (v * q);
  }

  lemma Spread(n: int, x: int, y: int)
    ensures n * (-x - y) == -(n * x) - n * y
  {}

  /** A whole path for the distances a and b. */
  predicate Whole(path: Path, a: nat, b: nat) {
    Proper(path, a, b) && |path| == Max(a, b) + 1 && Max(a, b) > 0
  }

  lemma {:induction false} MajorIs(path: Path, a: nat, b: nat, k: nat)
    requires Proper(path, a, b) && k < |path|
    ensures (a >= b ==> path[k].0 == k) && (b >= a ==> path[k].1 == k)
  {
    hide Close;
    if k > 0 {
      MajorIs(path, a, b, k - 1);
      assert OneMove(path[k - 1], path[k - 1 + 1], a, b);
    }
  }

  /** Every multiple of the divisor that a point can miss the line by, some point misses it by. */
  lemma Hit(path: Path, a: nat, b: nat, q: int) returns (k: nat)
    requires Whole(path, a, b)
    requires var m := 2 * Mult(Gcd(a, b), q); if a >= b then -(a as int) < m <= a else -(b as int) <= m < b
    ensures k < |path| - 1 && Miss(path[k].0, path[k].1, a, b) == Mult(Gcd(a, b), q)
  {
    var g := Gcd(a, b);
    var u, v := Bezout(a, b);
    hide Gcd;
    var j;
    if a >= b {
      k, j := Solve(a, b, u, v, g, q);
      MajorIs(path, a, b, k);
      assert Close(path[k].0, path[k].1, a, b);
      hide Proper;
      OnlyOne(a, path[k].1, j, b * k);
    } else {
      k, j := Solve(b, a, v, u, g, -q);
      assert g * -q == -(g * q);
      MajorIs(path, a, b, k);
      assert Close(path[k].0, path[k].1, a, b);
      hide Proper;
      OnlyOne(b, path[k].0, j, a * k);
    }
  }

  lemma OnlyOne(m: nat, x: int, y: int, c: int)
    requires m > 0 && -(m as int) < (m * x - c) - (m * y - c) < m
    ensures x == y
  {
    var d := x - y;
    assert m * d == m * x - m * y;
    Cyclic.Times(m, d);
  }

  lemma Multiples(a: nat, b: nat, i: nat, j: nat)
    requires Max(a, b) > 0
    ensures Gcd(a, b) > 0 && exists q: int :: Miss(i, j, a, b) == Mult(Gcd(a, b), q)
  {
    GcdDivides(a, b);
    var g := Gcd(a, b);
    hide Gcd;
    var x := Quotient(a, g);
    var y := Quotient(b, g);
    Factor(g, x, y, i, j, a, b);
  }

  lemma Factor(g: nat, x: int, y: int, i: nat, j: nat, a: nat, b: nat)
    requires a == Mult(g, x) && b == Mult(g, y)
    ensures Miss(i, j, a, b) == Mult(g, x * j - y * i)
  {
    assert g * x * j == g * (x * j) && g * y * i == g * (y * i);
  }

  lemma MultLe(g: nat, x: int, y: int)
    ensures x <= y ==> Mult(g, x) <= Mult(g, y)
  {}

  lemma MultAdd(g: nat, x: int, y: int)
    ensures Mult(g, x + y) == Mult(g, x) + Mult(g, y) && Mult(g, -x) == -Mult(g, x) && Mult(g, 1) == g
  {}

  /** HalfUp and HalfDown bound the multiples in half a turn on either side. */
  lemma Halves(n: nat, g: nat, q: int)
    requires n >= g > 0 && n % g == 0
    ensures 2 * Mult(g, q) <= n ==> Mult(g, q) <= HalfUp(n, g)
    ensures 2 * Mult(g, q) < n ==> Mult(g, q) <= HalfDown(n, g)
    ensures n - g <= 2 * HalfUp(n, g) <= n && 0 <= 2 * HalfDown(n, g) < n
  {
    var m := Quotient(n, g);
    hide Mult;
    MultAdd(g, m - 1, 1);
    MultAdd(g, m, 1);
    MultAdd(g, 0, 0);
    if m <= 0 { MultLe(g, m, 0); }
    var up, down := m / 2, (m - 1) / 2;
    MultAdd(g, up, up);
    MultAdd(g, down, down);
    MultAdd(g, q, q);
    MultLe(g, m - 1, up + up);
    MultLe(g, up + up, m);
    MultLe(g, down + down, m - 1);
    MultLe(g, 0, down);
    MultLe(g, q, up);
    MultLe(g, q, down);
    if q > up { MultLe(g, m + 1, q + q); }
    if q > down { MultLe(g, m, q + q); }
  }

  /** How far the points of a path miss the line. */
  lemma MissBounds(a: nat, b: nat, p: (nat, nat))
    requires Max(a, b) > 0 && Close(p.0, p.1, a, b)
    ensures var m := Miss(p.0, p.1, a, b);
            if a >= b then -Narrow(a, b) <= m <= Wide(a, b) else -Wide(a, b) <= m <= Narrow(a, b)
  {
    GcdDivides(a, b);
    Multiples(a, b, p.0, p.1);
    var g, m, n := Gcd(a, b), Miss(p.0, p.1, a, b), Max(a, b);
    hide Gcd, HalfUp, HalfDown, Miss, Mult;
    var q: int :| m == Mult(g, q);
    MultAdd(g, q, 0);
    Halves(n, g, q);
    Halves(n, g, -q);
  }

  lemma NextErr(p: (nat, nat), q: (nat, nat), a: nat, b: nat)
    requires Max(a, b) > 0 && Close(p.0, p.1, a, b) && Close(q.0, q.1, a, b) && OneMove(p, q, a, b)
    ensures var err := Err(p, a, b);
            var mid := if 2 * err >= -(b as int) then err - b else err;
            Err(q, a, b) == if 2 * err <= a then mid + a else mid
  {
    MissStep(p.0, p.1, a, b);
    hide Miss;
  }

  lemma TameRound(p: (nat, nat), q: (nat, nat), a: nat, b: nat)
    requires Tame(a, b) && Max(a, b) > 0 && Close(p.0, p.1, a, b) && Close(q.0, q.1, a, b) && OneMove(p, q, a, b)
    ensures RoundFits(Err(p, a, b), a, b)
  {
    MissBounds(a, b, p);
    MissBounds(a, b, q);
    NextErr(p, q, a, b);
    SideBounds(a, b);
    if a == 0 { assert Miss(p.0, p.1, a, b) <= 0; }
    hide Wide, Narrow, Miss, OneMove;
  }

  lemma WildFlat(path: Path, a: nat, b: nat) returns (k: nat)
    requires Whole(path, a, b) && !Tame(a, b) && b <= a < INT32
    ensures k < |path| - 1 && !RoundFits(Err(path[k], a, b), a, b)
  {
    SideBounds(a, b);
    var up, down, rest := Sides(a, b);
    hide Gcd, Wide, Narrow, Miss, Whole, Mult;
    if 2 * (a - b) + 2 * Wide(a, b) >= INT32 { k := Hit(path, a, b, up); } else { k := Hit(path, a, b, -down); }
  }

  lemma WildSteep(path: Path, a: nat, b: nat) returns (k: nat)
    requires Whole(path, a, b) && !Tame(a, b) && a < b < INT32
    ensures k < |path| - 1 && !RoundFits(Err(path[k], a, b), a, b)
  {
    SideBounds(a, b);
    var up, down, rest := Sides(a, b);
    hide Gcd, Wide, Narrow, Miss, Whole, Mult;
    if 2 * (b - a) + 2 * Wide(a, b) > INT32 { k := Hit(path, a, b, -up); } else { k := Hit(path, a, b, rest); }
  }

  lemma SideBounds(a: nat, b: nat)
    requires Max(a, b) > 0
    ensures 0 <= 2 * Wide(a, b) <= Max(a, b) && 0 <= 2 * Narrow(a, b) < Max(a, b)
    ensures 0 < a < b ==> 2 * Wide(a, b) >= b - a
  {
    GcdDivides(a, b);
    hide Gcd, HalfUp, HalfDown;
    Halves(Max(a, b), Gcd(a, b), 0);
  }

  /** The extremes as multiples of the divisor, and what is left to go before a step in x that ends at one. */
  lemma Sides(a: nat, b: nat) returns (up: int, down: int, rest: int)
    requires Max(a, b) > 0
    ensures var g := Gcd(a, b);
            && Mult(g, up) == Wide(a, b) && Mult(g, -up) == -Wide(a, b) && Mult(g, -down) == -Narrow(a, b)
            && Mult(g, rest) == b - a - Wide(a, b)
  {
    GcdDivides(a, b);
    var g, n := Gcd(a, b), Max(a, b);
    hide Gcd;
    var m := Quotient(n, g);
    var x := Quotient(a, g);
    var y := Quotient(b, g);
    up, down := m / 2, (m - 1) / 2;
    rest := y - x - up;
    hide Mult;
    MultAdd(g, up, 0);
    MultAdd(g, down, 0);
    MultAdd(g, x, 0);
    MultAdd(g, y, -x);
    MultAdd(g, y - x, -up);
  }

  /** The loop stays inside 32 bits if and only if the distances are tame. */
  lemma FitsExactly(path: Path, a: nat, b: nat)
    requires Proper(path, a, b) && |path| == Max(a, b) + 1
    ensures Fits(path, a, b) <==> Tame(a, b)
  {
    hide Close, Tame, RoundFits, Err;
    if Max(a, b) == 0 {
      assert Tame(0, 0) by { ZeroIsTame(); }
    } else if Tame(a, b) {
      TameWords(a, b);
      forall k | 0 <= k < |path| - 1 ensures RoundFits(Err(path[k], a, b), a, b) {
        assert OneMove(path[k], path[k + 1], a, b);
        TameRound(path[k], path[k + 1], a, b);
      }
    } else if a < INT32 && b < INT32 {
      if a >= b { var k := WildFlat(path, a, b); } else { var k := WildSteep(path, a, b); }
    }
  }

  lemma ZeroIsTame()
    ensures Tame(0, 0)
  {}

  lemma TameWords(a: nat, b: nat)
    requires Tame(a, b)
    ensures a < INT32 && b < INT32
  {}

  /** Lines along an axis. */
  lemma AxisTame(n: nat)
    ensures (Tame(n, 0) <==> n < 0x4000_0000) && (Tame(0, n) <==> n <= 0x4000_0000)
  {
    if n > 0 {
      assert Gcd(0, n) == Gcd(n, 0) == n by { Cyclic.DivUnique(0, n, 0, 0); }
      Cyclic.DivUnique(n, n, 1, 0);
      assert Wide(n, 0) == Wide(0, n) == 0 && Narrow(n, 0) == 0;
      hide Wide, Narrow;
    }
  }

  /** Lines of fewer than 2^31 / 3 moves. */
  lemma ShortTame(a: nat, b: nat)
    requires 3 * Max(a, b) < INT32
    ensures Tame(a, b)
  {
    if Max(a, b) > 0 { SideBounds(a, b); }
    hide Wide, Narrow;
  }

  /** Next to a diagonal the doubled error term fits at every point, the term between its two updates does not. */
  lemma NearDiagonal()
    ensures !Tame(2_000_000_001, 2_000_000_000)
    ensures forall i: nat, j: nat :: Close(i, j, 2_000_000_001, 2_000_000_000) ==>
              Word(2 * Err((i, j), 2_000_000_001, 2_000_000_000))
  {
    var a, b := 2_000_000_001, 2_000_000_000;
    assert Gcd(a, b) == Gcd(b, 1) == Gcd(1, 0) == 1;
    hide Gcd;
    assert Narrow(a, b) == 1_000_000_000 && Wide(a, b) == 1_000_000_000;
    hide Wide, Narrow, Miss, Close;
    forall i: nat, j: nat | Close(i, j, a, b) ensures Word(2 * Err((i, j), a, b)) { MissBounds(a, b, (i, j)); }
  }

  // ----- the method -----

  /** hal_display_line: draws exactly the points of a proper path of max(|dx|, |dy|) moves that ends on the
      target, clipped to the frame buffer.  `fits` says whether every value formed on the way was a 32-bit number,
      as the original has them; it depends on the distances alone. */
  method Draw(fb: array2<nat>, x0: int, y0: int, x1: int, y1: int, raw: nat) returns (ghost path: Path,
          ghost fits: bool)
    requires Word(x0) && Word(y0) && Word(x1) && Word(y1)
    modifies fb
    ensures var a, b := Abs(x1 - x0), Abs(y1 - y0);
            Proper(path, a, b) && |path| == Max(a, b) + 1 && path[|path| - 1] == (a, b)
    ensures forall y, x :: 0 <= y < fb.Length0 && 0 <= x < fb.Length1 ==>
              fb[y, x] == if OnPath(path, x0, y0, x1, y1, x, y) then raw else old(fb[y, x])
    ensures fits <==> Tame(Abs(x1 - x0), Abs(y1 - y0))
  {
    hide Close, Miss, OnPath, Proper, Word, Tame, Err, Fits, RoundFits;
    var a, b := Abs(x1 - x0), Abs(y1 - y0);
    var sx, sy := if x0 < x1 then 1 else -1, if y0 < y1 then 1 else -1;
    var dx: int, dy: int := a, -(b as int);
    var x, y, err := x0, y0, dx + dy;
    fits := Word(dx) && Word(b) && Word(err);
    ghost var i: nat, j: nat := 0, 0;
    path := [];
    StartPath(a, b);
    NothingOnPath(x0, y0, x1, y1);
    assert path + [(i, j)] == [(0, 0)];
    while true
      invariant Proper(path + [(i, j)], a, b) && (a >= b ==> i == |path|) && (b >= a ==> j == |path|)
      invariant x == Along(x0, x1, i) && y == Along(y0, y1, j) && err == Err((i, j), a, b)
      invariant forall v, u :: 0 <= v < fb.Length0 && 0 <= u < fb.Length1 ==>
        fb[v, u] == if OnPath(path, x0, y0, x1, y1, u, v) then raw else old(fb[v, u])
      invariant fits <==> Fits(path + [(i, j)], a, b)
      decreases Max(a, b) - |path|
    {
      Paint(fb, x, y, raw);
      OnPathAppend(path, (i, j), x0, y0, x1, y1);
      path := path + [(i, j)];
      LastBounds(path, i, j, a, b);
      if x == x1 && y == y1 { break; }
      ghost var (i', j') := Next((i, j), a, b);
      Choice(i, j, a, b);
      Extend(path, i, j, i', j', a, b);
      FitsNext(path, (i', j'), a, b);
      LastBounds(path + [(i', j')], i', j', a, b);
      Between(x0, x1, i');
      Between(y0, y1, j');
      ghost var ok;
      x, y, err, ok := Advance(x, y, err, dx, dy, sx, sy);
      fits := fits && ok;
      i, j := i', j';
    }
    assert i == a && j == b;
    FitsExactly(path, a, b);
  }

  /** The second half of a round; `ok` says whether the values formed are 32-bit numbers. */
  method Advance(x: int, y: int, err: int, dx: int, dy: int, sx: int, sy: int) returns (x': int, y': int, err': int,
          ghost ok: bool)
    requires dx >= 0 && dy <= 0
    ensures x' == (if 2 * err >= dy then x + sx else x) && y' == (if 2 * err <= dx then y + sy else y)
    ensures err' == err + (if 2 * err >= dy then dy else 0) + (if 2 * err <= dx then dx else 0)
    ensures Word(x') && Word(y') ==> (ok <==> RoundFits(err, dx, -dy))
  {
    x', y', err' := x, y, err;
    var e2 := 2 * err;
    ok := Word(e2);
    if e2 >= dy {
      err' := err' + dy;
      x' := x' + sx;
    }
    ok := ok && Word(err') && Word(x');
    if e2 <= dx {
      err' := err' + dx;
      y' := y' + sy;
    }
    ok := ok && Word(err') && Word(y');
  }

  lemma Between(from: int, to: int, i: nat)
    requires Word(from) && Word(to) && i <= Abs(to - from)
    ensures Word(Along(from, to, i))
  {}

  lemma FitsNext(path: Path, p: (nat, nat), a: nat, b: nat)
    requires |path| > 0
    ensures Fits(path + [p], a, b) <==> Fits(path, a, b) && RoundFits(Err(path[|path| - 1], a, b), a, b)
  {
    hide RoundFits, Err;
    var q := path + [p];
    assert forall k :: 0 <= k < |path| ==> q[k] == path[k];
  }

  lemma NothingOnPath(x0: int, y0: int, x1: int, y1: int)
    ensures forall x, y :: !OnPath([], x0, y0, x1, y1, x, y)
  {}

  lemma OnPathAppend(path: Path, p: (nat, nat), x0: int, y0: int, x1: int, y1: int)
    ensures forall x, y :: OnPath(path + [p], x0, y0, x1, y1, x, y) <==>
            OnPath(path, x0, y0, x1, y1, x, y) || PointAt(p, x0, y0, x1, y1) == (x, y)
  {
    hide PointAt;
    var q := path + [p];
    forall x, y
      ensures OnPath(q, x0, y0, x1, y1, x, y) <==>
              OnPath(path, x0, y0, x1, y1, x, y) || PointAt(p, x0, y0, x1, y1) == (x, y)
    {
      if k :| 0 <= k < |path| && PointAt(path[k], x0, y0, x1, y1) == (x, y) { assert q[k] == path[k]; }
      assert q[|path|] == p;
      assert forall k :: 0 <= k < |path| ==> q[k] == path[k];
    }
  }

  lemma LastBounds(path: Path, i: nat, j: nat, a: nat, b: nat)
    requires Proper(path, a, b) && path[|path| - 1] == (i, j)
    ensures i <= a && j <= b && Close(i, j, a, b)
    ensures Max(a, b) > 0 && a >= b && i == a ==> j == b
    ensures Max(a, b) > 0 && b >= a && j == b ==> i == a
  {
    if Max(a, b) > 0 { CloseBounds(i, j, a, b); }
  }

  lemma Extend(path: Path, i: nat, j: nat, i': nat, j': nat, a: nat, b: nat)
    requires Proper(path, a, b) && path[|path| - 1] == (i, j) && (i, j) != (a, b) && Close(i', j', a, b)
    requires OneMove((i, j), (i', j'), a, b)
    ensures Proper(path + [(i', j')], a, b)
  {
    LastBounds(path, i, j, a, b);
    hide Close;
    assert (a >= b ==> i' <= a) && (b >= a ==> j' <= b);
    CloseBounds(i', j', a, b);
    var q := path + [(i', j')];
    forall k | 0 <= k < |q| - 1 ensures OneMove(q[k], q[k + 1], a, b) {
      if k < |path| - 1 { assert q[k] == path[k] && q[k + 1] == path[k + 1]; }
    }
  }

  lemma StartPath(a: nat, b: nat)
    ensures Proper([(0, 0)], a, b) && Err((0, 0), a, b) == a - b
    ensures Fits([(0, 0)], a, b) <==> Word(a) && Word(b) && Word(a - b)
  {}

  method Paint(fb: array2<nat>, x: int, y: int, raw: nat)
    modifies fb
    ensures forall v, u :: 0 <= v < fb.Length0 && 0 <= u < fb.Length1 ==>
            fb[v, u] == if v == y && u == x then raw else old(fb[v, u])
  {
    if x >= 0 && y >= 0 && x < fb.Length1 && y < fb.Length0 {
      fb[y, x] := raw;
    }
  }
}
