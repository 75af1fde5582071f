/** Boss points and the loot bonus they buy. */
module Bosstiary {
  import opened Basics

  // ---------------------------------------------------------------- integer square root

  function SqrtFloor(n: nat): (r: nat)
    ensures r * r <= n < (r + 1) * (r + 1)
  {
    if n == 0 then 0
    else
      var r := SqrtFloor(n - 1);
      if (r + 1) * (r + 1) <= n then r + 1 else r
  }

  lemma SquareMonotone(x: int, y: int)
    requires 0 <= x && 0 <= y
    ensures x <= y <==> x * x <= y * y
  {
    if x < y {
      assert x * x <= x * y <= y * y;
      assert x * y < y * y;
    } else if y < x {
      assert y * y <= x * y < x * x;
    }
  }

  // ---------------------------------------------------------------- the two functions

  /** The radicand of the top tier, computed in 32 bits. */
  function Radicand(bossPoints: nat): nat
    requires bossPoints >= 1250
  {
    (8 * ((bossPoints - 1250) / 5) + 81) % U32
  }

  /** `calculateLootBonus`. The square root is exact; what is truncated is (sqrt - 9) / 2 + 100. */
  function LootBonus(bossPoints: nat): int {
    if bossPoints <= 250 then 25 + bossPoints / 10
    else if bossPoints < 1250 then 37 + bossPoints / 20
    else 100 + (SqrtFloor(Radicand(bossPoints)) - 9) / 2
  }

  /** `calculateBossPoints`, with the doubled polynomial divided once; it is always even. */
  function BossPoints(lootBonus: nat): nat {
    PolynomialPositive(lootBonus);
    if lootBonus <= 25 then 0
    else if lootBonus <= 50 then 10 * lootBonus - 250
    else if lootBonus <= 100 then 20 * lootBonus - 750
    else (5 * lootBonus * lootBonus - 955 * lootBonus + 48000) / 2
  }

  lemma PolynomialPositive(b: nat)
    ensures 5 * b * b - 955 * b + 48000 >= 0
  {
    SquareOf(b);
    FiveSquares(b);
    SquareMonotone(0, if 2 * b >= 191 then 2 * b - 191 else 191 - 2 * b);
    assert (2 * b - 191) * (2 * b - 191) == (191 - 2 * b) * (191 - 2 * b);
  }

  // ---------------------------------------------------------------- the points as a scale

  /** Steps of five points above 1250. */
  function Steps(b: nat): int {
    (b * b - 191 * b + 9100) / 2
  }

  /** b * (b - 191) is even, so no halving rounds. */
  lemma StepsExact(b: nat)
    ensures 2 * Steps(b) == b * b - 191 * b + 9100
    ensures 8 * Steps(b) + 81 == (2 * b - 191) * (2 * b - 191)
    ensures b >= 100 ==> BossPoints(b) == 1250 + 5 * Steps(b)
  {
    SquareParity(b);
    HalvesExactly(b * b, b, b / 2, b / 2 * (b / 2));
    SquareOf(b);
    FiveSquares(b);
  }

  lemma HalvesExactly(square: int, b: nat, h: nat, h2: int)
    requires (b == 2 * h && square == 4 * h2) || (b == 2 * h + 1 && square == 4 * h2 + 4 * h + 1)
    ensures 2 * ((square - 191 * b + 9100) / 2) == square - 191 * b + 9100
  {
    if b == 2 * h {
      Halves(square - 191 * b + 9100, 2 * h2 - 191 * h + 4550);
    } else {
      Halves(square - 191 * b + 9100, 2 * h2 - 189 * h + 4455);
    }
  }

  lemma Halves(x: int, half: int)
    requires x == 2 * half
    ensures 2 * (x / 2) == x
  {
  }

  lemma FiveSquares(b: nat)
    ensures 5 * b * b == 5 * (b * b)
  {
  }

  lemma SquareParity(b: nat)
    ensures var h := b / 2; b * b == if b % 2 == 0 then 4 * (h * h) else 4 * (h * h) + 4 * h + 1
  {
    var h := b / 2;
    if b % 2 == 0 {
      assert b == 2 * h;
    } else {
      assert b == 2 * h + 1;
    }
  }

  lemma SquareOf(b: nat)
    ensures (2 * b - 191) * (2 * b - 191) == 4 * (b * b) - 764 * b + 36481
  {
  }

  lemma NextPoints(b: nat)
    ensures BossPoints(b) <= BossPoints(b + 1)
    ensures b >= 25 ==> BossPoints(b) < BossPoints(b + 1)
    ensures b >= 100 ==> Steps(b + 1) == Steps(b) + b - 95
  {
    if b >= 100 {
      StepsExact(b);
      StepsExact(b + 1);
      assert (b + 1) * (b + 1) == b * b + 2 * b + 1;
    }
    StepsExact(101);
  }

  lemma {:induction false} PointsMonotone(b: nat, c: nat)
    requires b <= c
    ensures BossPoints(b) <= BossPoints(c)
    decreases c
  {
    if b < c {
      PointsMonotone(b, c - 1);
      NextPoints(c - 1);
    }
  }

  /** The bonus is the greatest that the points pay for. */
  ghost predicate IsGreatest(b: int, points: nat) {
    && b >= 0 && BossPoints(b) <= points
    && forall c: nat :: c > b ==> BossPoints(c) > points
  }

  lemma GreatestIff(b: nat, points: nat)
    requires BossPoints(b) <= points
    ensures IsGreatest(b, points) <==> BossPoints(b + 1) > points
  {
    if BossPoints(b + 1) > points {
      forall c: nat | c > b
        ensures BossPoints(c) > points
      {
        PointsMonotone(b + 1, c);
      }
    }
  }

  /** The first points at which 8 * q + 81 no longer fits 32 bits. */
  const WRAP: nat := 2_684_355_760

  /** The bonus from a root sits between two neighbouring steps. */
  lemma HalfRoot(n: nat, s: nat, b: nat, q: int)
    requires s * s <= n < (s + 1) * (s + 1) && n == 8 * q + 81
    requires s >= 9 && b == 100 + (s - 9) / 2
    ensures Steps(b) <= q < Steps(b + 1)
  {
    StepsExact(b);
    StepsExact(b + 1);
    var lo, hi := 2 * b - 191, 2 * (b + 1) - 191;
    assert 0 <= lo <= s < hi;
    SquareMonotone(lo, s);
    SquareMonotone(s + 1, hi);
  }

  /** The root is below 2^16, and at least 9 when the radicand is at least 81. */
  lemma RootBounds(bossPoints: nat)
    requires bossPoints >= 1250
    ensures 0 <= SqrtFloor(Radicand(bossPoints)) < 65536
    ensures Radicand(bossPoints) >= 81 ==> SqrtFloor(Radicand(bossPoints)) >= 9
  {
    var n := Radicand(bossPoints);
    RootBelow(n, SqrtFloor(n));
    if n >= 81 {
      RootAbove(n, SqrtFloor(n));
    }
  }

  lemma RootBelow(n: nat, s: nat)
    requires s * s <= n < 65536 * 65536
    ensures s < 65536
  {
    SquareMonotone(65536, s);
  }

  lemma RootAbove(n: nat, s: nat)
    requires 81 <= n < (s + 1) * (s + 1)
    ensures s >= 9
  {
    SquareMonotone(s + 1, 9);
  }

  lemma TopFits(p: nat)
    requires 1250 <= p < WRAP
    ensures LootBonus(p) >= 100 && IsGreatest(LootBonus(p), p)
  {
    TopPaid(p);
    GreatestIff(LootBonus(p), p);
  }

  lemma TopPaid(p: nat)
    requires 1250 <= p < WRAP
    ensures var b := LootBonus(p); b >= 100 && BossPoints(b) <= p < BossPoints(b + 1)
  {
    PlainRadicand(p);
    TopBonus(p, (p - 1250) / 5);
    PaidFor(p, LootBonus(p));
  }

  lemma TopBonus(p: nat, q: int)
    requires p >= 1250 && Radicand(p) == 8 * q + 81 >= 81
    ensures 100 <= LootBonus(p) <= 32863 && Steps(LootBonus(p)) <= q < Steps(LootBonus(p) + 1)
  {
    RootBounds(p);
    HalfRoot(Radicand(p), SqrtFloor(Radicand(p)), LootBonus(p), q);
  }

  lemma PlainRadicand(p: nat)
    requires 1250 <= p < WRAP
    ensures Radicand(p) == 8 * ((p - 1250) / 5) + 81
  {
  }

  /** Between two steps, the points pay for one bonus and not for the next. */
  lemma PaidFor(p: nat, b: nat)
    requires p >= 1250 && b >= 100 && Steps(b) <= (p - 1250) / 5 < Steps(b + 1)
    ensures BossPoints(b) <= p < BossPoints(b + 1)
  {
    StepsExact(b);
    StepsExact(b + 1);
    var x, y := Steps(b), Steps(b + 1);
    assert 1250 + 5 * x <= p < 1250 + 5 * y;
  }

  lemma TopWraps(p: nat)
    requires WRAP <= p < U32
    ensures !IsGreatest(LootBonus(p), p)
  {
    var steps := (p - 1250) / 5;
    var q, s, b := steps - 0x2000_0000, SqrtFloor(Radicand(p)), LootBonus(p);
    WrappedRadicand(p);
    RootBounds(p);
    if Radicand(p) >= 81 {
      TopBonus(p, q);
      NextPoints(b);
      assert Steps(b + 1) <= steps;
      StepsExact(b + 1);
    } else {
      assert 95 <= b < 100 by { SquareMonotone(9, s); }
      PointsMonotone(b + 1, 100);
    }
    assert BossPoints(b + 1) <= p;
  }

  lemma WrappedRadicand(p: nat)
    requires WRAP <= p < U32
    ensures Radicand(p) == 8 * ((p - 1250) / 5 - 0x2000_0000) + 81
  {
  }

  lemma LowTiers(p: nat)
    requires p < 1250
    ensures IsGreatest(LootBonus(p), p) <==> p <= 250 || p % 20 < 10
  {
    GreatestIff(LootBonus(p), p);
  }

  /** For which points is the bonus the greatest that they pay for? In the first tier always; in
      the second when the division by 20 rounds off less than half; in the third until the
      radicand leaves 32 bits. */
  lemma LootBonusGreatestIff(bossPoints: nat)
    requires bossPoints < U32
    ensures IsGreatest(LootBonus(bossPoints), bossPoints) <==>
              bossPoints <= 250
              || (bossPoints < 1250 && bossPoints % 20 < 10)
              || 1250 <= bossPoints < WRAP
  {
    if bossPoints < 1250 {
      LowTiers(bossPoints);
    } else if bossPoints < WRAP {
      TopFits(bossPoints);
    } else {
      TopWraps(bossPoints);
    }
  }

  /** Which bonuses survive the way to points and back: those of the first tier and, until the
      radicand wraps, those from 100 on. Between the tiers exactly one is lost. */
  lemma RoundTripIff(b: nat)
    requires BossPoints(b) < U32
    ensures LootBonus(BossPoints(b)) == b <==> 25 <= b <= 50 || (b >= 100 && BossPoints(b) < WRAP)
    ensures 50 < b < 100 ==> LootBonus(BossPoints(b)) == b - 1
    ensures b < 25 ==> LootBonus(BossPoints(b)) == 25
  {
    if b >= 100 {
      PointsMonotone(100, b);
      var p := BossPoints(b);
      StepsExact(b);
      LootBonusGreatestIff(p);
      NextPoints(b);
      GreatestIff(b, p);
      if LootBonus(p) < b {
        assert IsGreatest(LootBonus(p), p) ==> BossPoints(b) > p;
      }
    }
  }

  // ---------------------------------------------------------------- where more points mean less bonus

  lemma SqrtMonotone(m: nat, n: nat)
    requires m <= n
    ensures SqrtFloor(m) <= SqrtFloor(n)
  {
    var r, s := SqrtFloor(m), SqrtFloor(n);
    if r > s {
      SquareMonotone(s + 1, r);
    }
  }

  lemma TopMonotone(p: nat, q: nat)
    requires 1250 <= p && 1250 <= q && Radicand(p) <= Radicand(q)
    ensures LootBonus(p) <= LootBonus(q)
  {
    SqrtMonotone(Radicand(p), Radicand(q));
  }

  /** The wrapped radicand starts again from 1. */
  lemma BonusAtWrap(p: nat)
    requires p == WRAP - 1
    ensures LootBonus(p + 1) == 96 && LootBonus(p) >= 100
  {
    WrappedRadicand(p + 1);
    RootIs(Radicand(p + 1), 1);
    TopFits(p);
  }

  lemma BonusAtTop(p: nat)
    requires p == 1249
    ensures LootBonus(p + 1) == 100 && LootBonus(p) == 99
  {
    PlainRadicand(p + 1);
    RootIs(Radicand(p + 1), 9);
  }

  lemma RootIs(n: nat, r: nat)
    requires r * r <= n < (r + 1) * (r + 1)
    ensures SqrtFloor(n) == r
  {
    var s := SqrtFloor(n);
    if s < r {
      SquareMonotone(s + 1, r);
    } else if s > r {
      SquareMonotone(r + 1, s);
    }
  }

  lemma LowDrops(p: nat)
    requires p < 1249
    ensures LootBonus(p + 1) < LootBonus(p) <==> p == 250
  {
  }

  /** One point more means less bonus in exactly two places: from the first tier to the second, and
      where the radicand wraps. */
  lemma DropsIff(p: nat)
    requires p + 1 < U32
    ensures LootBonus(p + 1) < LootBonus(p) <==> p == 250 || p == WRAP - 1
  {
    if p < 1249 {
      LowDrops(p);
    } else if p == 1249 {
      BonusAtTop(p);
    } else if p == WRAP - 1 {
      BonusAtWrap(p);
    } else {
      RadicandGrows(p, p + 1);
      TopMonotone(p, p + 1);
    }
  }

  lemma RadicandGrows(p: nat, q: nat)
    requires 1250 <= p <= q < U32 && !(p < WRAP <= q)
    ensures Radicand(p) <= Radicand(q)
  {
    if q < WRAP {
      PlainRadicand(p);
      PlainRadicand(q);
    } else {
      WrappedRadicand(p);
      WrappedRadicand(q);
    }
  }

  /** Between amounts with neither place between them, more points never mean less bonus. */
  lemma {:induction false} BonusMonotone(p: nat, q: nat)
    requires p <= q < U32 && !(p <= 250 < q) && !(p < WRAP <= q)
    ensures LootBonus(p) <= LootBonus(q)
    decreases q
  {
    if p < q {
      var r := q - 1;
      BonusMonotone(p, r);
      DropsIff(r);
      assert r + 1 == q && r != 250 && r != WRAP - 1;
    }
  }

  /** The smaller of the two. */
  lemma NotMonotone()
    ensures LootBonus(250) == 50 && LootBonus(251) == 49
  {
  }
}
