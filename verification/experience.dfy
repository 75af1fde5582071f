/** Experience for a kill: shares in proportion to the damage dealt, rounded down. */
module Experience {
  import opened Basics
  import opened Sums

  type Creature = nat

  datatype Damage = Damage(total: nat, ticks: nat)

  /** Damage taken, by attacker. */
  type DamageMap = map<Creature, Damage>

  /** The damage that counts: of known attackers, and not nothing. */
  function Dealt(dm: DamageMap): map<Creature, int> {
    map c | c in dm && c != 0 && dm[c].total != 0 :: dm[c].total
  }

  ghost function TotalDealt(dm: DamageMap): int {
    Sum(Dealt(dm), Self)
  }

  /** `getGainedExperience` with the ratio taken exactly; the total has 32 bits. */
  function Gained(dm: DamageMap, attacker: Creature, total: int, lost: nat): int {
    if total % U32 == 0 || attacker !in Dealt(dm) then 0 else Dealt(dm)[attacker] * lost / (total % U32)
  }

  /** A dealer that the death loop rewards: it still exists, has a time stamp, is not the victim. */
  predicate Rewarded(dm: DamageMap, c: Creature, online: set<Creature>, victim: Creature) {
    c in Dealt(dm) && c in online && dm[c].ticks != 0 && c != victim
  }

  ghost function Gains(dm: DamageMap, online: set<Creature>, victim: Creature, lost: nat): map<Creature, int> {
    map c | c in dm && Rewarded(dm, c, online, victim) :: Gained(dm, c, TotalDealt(dm), lost)
  }

  /** Everything handed out on a death. */
  ghost function HandedOut(dm: DamageMap, online: set<Creature>, victim: Creature, lost: nat): int {
    Sum(Gains(dm, online, victim, lost), Self)
  }

  /** Who gains, and how much: every attacker that is known, has dealt damage at a known time and still
      exists, but not the victim itself; the share of the loss that its damage has in the total. */
  lemma WhoGains(dm: DamageMap, online: set<Creature>, victim: Creature, lost: nat, c: Creature)
    ensures var g, total := Gains(dm, online, victim, lost), TotalDealt(dm) % U32;
            && (c in g <==> c in dm && c != 0 && c != victim && c in online && dm[c].total != 0 && dm[c].ticks != 0)
            && (c in g ==> g[c] == if total == 0 then 0 else dm[c].total * lost / total)
  {
  }

  // ---------------------------------------------------------------- bounds

  lemma Split(m: map<Creature, int>, c: Creature)
    requires c in m
    ensures Sum(m, Self) == m[c] + Sum(m - {c}, Self)
  {
    SumWithout(m, Self, c);
    assert Self(m[c]) == m[c];
  }

  /** Shares that are each at most in proportion are so together. */
  lemma {:induction false} SharesAtMost(g: map<Creature, int>, a: map<Creature, int>, lost: nat, total: nat)
    requires g.Keys <= a.Keys
    requires forall c :: c in a ==> lost * a[c] >= 0
    requires forall c :: c in g ==> total * g[c] <= lost * a[c]
    ensures total * Sum(g, Self) <= lost * Sum(a, Self)
    decreases |a|
  {
    if a == map[] {
      assert g == map[];
    } else {
      var c :| c in a;
      var rest := g - {c};
      Split(a, c);
      SharesAtMost(rest, a - {c}, lost, total);
      if c in g {
        Split(g, c);
      } else {
        assert rest == g;
      }
      CoverShare(lost, total, a[c], Sum(a - {c}, Self), if c in g then g[c] else 0, Sum(rest, Self));
    }
  }

  lemma CoverShare(lost: nat, total: nat, dealt: int, others: int, share: int, shares: int)
    requires total * share <= lost * dealt && total * shares <= lost * others
    ensures total * (share + shares) <= lost * (dealt + others)
  {
    Distribute(lost, dealt, others);
    Distribute(total, share, shares);
  }

  function Next(x: int): int { x + 1 }

  function Times(k: int): int -> int {
    x => k * Self(x)
  }

  function TimesNext(k: int): int -> int {
    x => k * Next(x)
  }

  /** Rounding down loses less than one point per share. */
  lemma SharesAtLeast(g: map<Creature, int>, a: map<Creature, int>, lost: nat, total: int)
    requires Sum(a, Times(lost)) < Sum(g, TimesNext(total)) && total == Sum(a, Self) > 0
    ensures lost < Sum(g, Self) + |g|
  {
    SumTimes(a, lost);
    SumTimesNext(g, total);
    CancelSums(total, lost, Sum(g, Self) + |g|, Sum(a, Times(lost)), Sum(g, TimesNext(total)));
  }

  lemma CancelSums(total: int, x: int, y: int, left: int, right: int)
    requires total > 0 && left == x * total && right == total * y && left < right
    ensures x < y
  {
    CancelStrict(total, x, y);
  }

  lemma SumTimes(m: map<Creature, int>, k: int)
    ensures Sum(m, Times(k)) == k * Sum(m, Self)
  {
    SumScaled(m, Self, Times(k), k);
  }

  lemma SumTimesNext(m: map<Creature, int>, k: int)
    ensures Sum(m, TimesNext(k)) == k * (Sum(m, Self) + |m|)
  {
    SumScaled(m, Next, TimesNext(k), k);
    SumNext(m);
  }

  lemma {:induction false} SumLess(a: map<Creature, int>, f: int -> int, b: map<Creature, int>, g: int -> int)
    requires a.Keys == b.Keys && forall c :: c in a ==> f(a[c]) < g(b[c])
    ensures Sum(a, f) <= Sum(b, g) && (a != map[] ==> Sum(a, f) < Sum(b, g))
    decreases |a|
  {
    if a == map[] {
      assert b == map[];
    } else {
      var c :| c in a;
      SumWithout(a, f, c);
      SumWithout(b, g, c);
      SumLess(a - {c}, f, b - {c}, g);
    }
  }

  lemma {:induction false} SumScaled(m: map<Creature, int>, f: int -> int, g: int -> int, k: int)
    requires forall x :: g(x) == k * f(x)
    ensures Sum(m, g) == k * Sum(m, f)
    decreases |m|
  {
    if m != map[] {
      var c :| c in m;
      SumWithout(m, f, c);
      SumWithout(m, g, c);
      SumScaled(m - {c}, f, g, k);
      Distribute(k, f(m[c]), Sum(m - {c}, f));
    }
  }

  lemma {:induction false} SumNext(m: map<Creature, int>)
    ensures Sum(m, Next) == Sum(m, Self) + |m|
    decreases |m|
  {
    if m != map[] {
      var c :| c in m;
      SumWithout(m, Next, c);
      Split(m, c);
      OneLess(m, c);
      SumNext(m - {c});
    }
  }

  lemma OneLess(m: map<Creature, int>, c: Creature)
    requires c in m
    ensures |m| == |m - {c}| + 1
  {
    assert m.Keys == (m - {c}).Keys + {c};
  }

  lemma GainedShare(dm: DamageMap, c: Creature, total: int, lost: nat)
    requires c in Dealt(dm) && 0 < total < U32
    ensures var q := Gained(dm, c, total, lost);
            q >= 0 && total * q <= lost * Dealt(dm)[c] < total * (q + 1)
  {
    var n := Dealt(dm)[c] * lost;
    assert n >= 0;
    assert n == total * (n / total) + n % total;
    assert total * (n / total + 1) == total * (n / total) + total;
  }

  lemma DealtPositive(dm: DamageMap)
    ensures TotalDealt(dm) >= 0
    ensures Dealt(dm) != map[] ==> TotalDealt(dm) > 0
  {
    var a := Dealt(dm);
    SumNonNegative(a, Self);
    if a != map[] {
      var c :| c in a;
      EntryBounded(a, Self, c);
      assert Self(a[c]) == a[c] > 0;
    }
  }

  /** As long as the damage total fits its 32 bits, never more is handed out than was lost. */
  lemma HandedOutAtMostLost(dm: DamageMap, online: set<Creature>, victim: Creature, lost: nat)
    requires TotalDealt(dm) < U32
    ensures 0 <= HandedOut(dm, online, victim, lost) <= lost
  {
    var a, g, total := Dealt(dm), Gains(dm, online, victim, lost), TotalDealt(dm);
    DealtPositive(dm);
    if a == map[] {
      assert g == map[];
    } else {
      forall c | c in g
        ensures g[c] >= 0 && total * g[c] <= lost * a[c]
      {
        GainedShare(dm, c, total, lost);
      }
      SharesAtMost(g, a, lost, total);
      SumNonNegative(g, Self);
      assert total * Sum(g, Self) <= lost * total;
      Cancel(total, Sum(g, Self), lost);
    }
  }

  /** Nobody can be given more than was lost, whoever is online and however much was lost. */
  ghost predicate NeverTooMuch(dm: DamageMap, victim: Creature) {
    forall online: set<Creature>, lost: nat :: HandedOut(dm, online, victim, lost) <= lost
  }

  /** The damage that can be rewarded at all, whoever is online. */
  function Rewardable(dm: DamageMap, victim: Creature): map<Creature, int> {
    map c | c in dm && Rewarded(dm, c, dm.Keys, victim) :: dm[c].total
  }

  /** For which damage is that so? Exactly when the total wraps to nothing, or what can be rewarded is
      no more than the wrapped total. */
  lemma NeverTooMuchIff(dm: DamageMap, victim: Creature)
    ensures NeverTooMuch(dm, victim) <==>
              TotalDealt(dm) % U32 == 0 || Sum(Rewardable(dm, victim), Self) <= TotalDealt(dm) % U32
  {
    var r := TotalDealt(dm) % U32;
    if r == 0 || Sum(Rewardable(dm, victim), Self) <= r {
      forall online: set<Creature>, lost: nat
        ensures HandedOut(dm, online, victim, lost) <= lost
      {
        AtMostLost(dm, online, victim, lost);
      }
    } else {
      EverybodyGainsAll(dm, victim);
    }
  }

  lemma AtMostLost(dm: DamageMap, online: set<Creature>, victim: Creature, lost: nat)
    requires var r := TotalDealt(dm) % U32; r == 0 || Sum(Rewardable(dm, victim), Self) <= r
    ensures HandedOut(dm, online, victim, lost) <= lost
  {
    var g, a, r := Gains(dm, online, victim, lost), Rewardable(dm, victim), TotalDealt(dm) % U32;
    if r == 0 {
      AllZero(g);
    } else {
      GainsCovered(dm, online, victim, lost);
      SharesAtMost(g, a, lost, r);
      CoveredFits(r, Sum(g, Self), Sum(a, Self), lost);
    }
  }

  lemma GainsCovered(dm: DamageMap, online: set<Creature>, victim: Creature, lost: nat)
    requires TotalDealt(dm) % U32 > 0
    ensures var g, a, r := Gains(dm, online, victim, lost), Rewardable(dm, victim), TotalDealt(dm) % U32;
            && g.Keys <= a.Keys && (forall c :: c in a ==> lost * a[c] >= 0)
            && forall c :: c in g ==> r * g[c] <= lost * a[c]
  {
    var g, a, r := Gains(dm, online, victim, lost), Rewardable(dm, victim), TotalDealt(dm) % U32;
    forall c | c in g
      ensures r * g[c] <= lost * a[c]
    {
      QuotientFits(a[c] * lost, r);
    }
  }

  lemma CoveredFits(r: nat, gained: int, dealt: int, lost: nat)
    requires r > 0 && r * gained <= lost * dealt && dealt <= r
    ensures gained <= lost
  {
    Scale(dealt, r, lost);
    Cancel(r, gained, lost);
  }

  lemma QuotientFits(x: nat, r: nat)
    requires r > 0
    ensures r * (x / r) <= x
  {
  }

  lemma {:induction false} AllZero(g: map<Creature, int>)
    requires forall c :: c in g ==> g[c] == 0
    ensures Sum(g, Self) == 0
    decreases |g|
  {
    if g != map[] {
      var c :| c in g;
      Split(g, c);
      AllZero(g - {c});
    }
  }

  /** When the loss equals the wrapped total, each dealer gains all the damage it dealt. */
  lemma EverybodyGainsAll(dm: DamageMap, victim: Creature)
    requires TotalDealt(dm) % U32 != 0
    ensures HandedOut(dm, dm.Keys, victim, TotalDealt(dm) % U32) == Sum(Rewardable(dm, victim), Self)
  {
    var a, r := Rewardable(dm, victim), TotalDealt(dm) % U32;
    var g := Gains(dm, dm.Keys, victim, r);
    assert g.Keys == a.Keys;
    forall c | c in a
      ensures g[c] == a[c]
    {
      DivExact(a[c], r);
    }
    assert g == a;
  }

  lemma Cancel(total: int, x: int, y: int)
    requires total > 0 && total * x <= y * total
    ensures x <= y
  {
    if x > y {
      Scale(y + 1, x, total);
      Distribute(total, y, 1);
    }
  }

  /** When every dealer is rewarded, less than one point per dealer is not handed out. */
  lemma ShortfallBelowDealers(dm: DamageMap, online: set<Creature>, victim: Creature, lost: nat)
    requires TotalDealt(dm) < U32 && Dealt(dm) != map[]
    requires forall c :: c in Dealt(dm) ==> Rewarded(dm, c, online, victim)
    ensures lost - HandedOut(dm, online, victim, lost) < |Dealt(dm)|
  {
    var a, g, total := Dealt(dm), Gains(dm, online, victim, lost), TotalDealt(dm);
    DealtPositive(dm);
    assert g.Keys == a.Keys;
    forall c | c in a
      ensures Times(lost)(a[c]) < TimesNext(total)(g[c])
    {
      GainedTerm(dm, c, total, lost);
    }
    SumLess(a, Times(lost), g, TimesNext(total));
    SharesAtLeast(g, a, lost, total);
    SameSize(a, g);
  }

  lemma GainedTerm(dm: DamageMap, c: Creature, total: int, lost: nat)
    requires c in Dealt(dm) && 0 < total < U32
    ensures Times(lost)(Dealt(dm)[c]) < TimesNext(total)(Gained(dm, c, total, lost))
  {
    GainedShare(dm, c, total, lost);
  }

  lemma SameSize(a: map<Creature, int>, b: map<Creature, int>)
    requires a.Keys == b.Keys
    ensures |a| == |b|
  {
    assert |a| == |a.Keys| && |b| == |b.Keys|;
  }

  lemma CancelStrict(total: int, x: int, y: int)
    requires total > 0 && x * total < total * y
    ensures x < y
  {
    if x >= y {
      Scale(y, x, total);
    }
  }

  /** Three attackers at the limit of their own counters overflow the total, and each gets
      more than everything. */
  lemma OverflowWitness(dm: DamageMap, online: set<Creature>, lost: nat)
    requires dm == map[1 := Damage(2147483647, 1), 2 := Damage(2147483647, 1), 3 := Damage(2147483647, 1)]
    requires online == {1, 2, 3} && lost == 1000
    ensures HandedOut(dm, online, 9, lost) == 3000
  {
    var g := Gains(dm, online, 9, lost);
    OverflownTotal(dm);
    OverflownShare();
    forall c {
      WhoGains(dm, online, 9, lost, c);
    }
    assert g.Keys == {1, 2, 3};
    SumThree(g, 1, 2, 3);
  }

  lemma OverflownShare()
    ensures 2147483647 * 1000 / 2147483645 == 1000
  {
  }

  lemma OverflownTotal(dm: DamageMap)
    requires dm == map[1 := Damage(2147483647, 1), 2 := Damage(2147483647, 1), 3 := Damage(2147483647, 1)]
    ensures Dealt(dm) == map[1 := 2147483647, 2 := 2147483647, 3 := 2147483647]
    ensures TotalDealt(dm) % U32 == 2147483645
  {
    SumThree(Dealt(dm), 1, 2, 3);
  }

  lemma SumThree(m: map<Creature, int>, x: Creature, y: Creature, z: Creature)
    requires m.Keys == {x, y, z} && x != y && y != z && x != z
    ensures Sum(m, Self) == m[x] + m[y] + m[z]
  {
    SumWithout(m, Self, x);
    SumWithout(m - {x}, Self, y);
    SumWithout(m - {x} - {y}, Self, z);
    assert m - {x} - {y} - {z} == map[];
  }

  // ---------------------------------------------------------------- sharing with the party

  /** The entry of the experience map, which counts from nothing. */
  function Entry(m: map<Creature, int>, c: Creature): int {
    if c in m then m[c] else 0
  }

  /** Adding a gain to its recipient, the attacker or the leader of its party. */
  function Award(m: map<Creature, int>, recipient: Creature, gain: int): map<Creature, int> {
    m[recipient := Entry(m, recipient) + gain]
  }

  lemma AwardAdds(m: map<Creature, int>, recipient: Creature, gain: int)
    ensures Sum(Award(m, recipient, gain), Self) == Sum(m, Self) + gain
  {
    AmountUpdate(m, recipient, Entry(m, recipient) + gain);
  }

  /** Who gains for an attacker. */
  function Recipient(leader: map<Creature, Creature>, c: Creature): Creature {
    if c in leader then leader[c] else c
  }

  /** The gains that go to `r`. */
  function GainsFor(gains: map<Creature, int>, leader: map<Creature, Creature>, r: Creature): map<Creature, int> {
    map c | c in gains && Recipient(leader, c) == r :: gains[c]
  }

  /** A gain goes to the leader of the attacker's party, or to an attacker without party: nobody else has
      any of it, a follower in a party included. */
  lemma WhoReceives(gains: map<Creature, int>, leader: map<Creature, Creature>, r: Creature)
    ensures (forall c :: c in gains ==> !(c in leader && leader[c] == r) && (c == r ==> c in leader)) ==>
              Sum(GainsFor(gains, leader, r), Self) == 0
    ensures forall c :: c in GainsFor(gains, leader, r) <==>
              c in gains && (if c in leader then leader[c] == r else c == r)
    ensures forall c :: c in GainsFor(gains, leader, r) ==> GainsFor(gains, leader, r)[c] == gains[c]
  {
    if forall c :: c in gains ==> !(c in leader && leader[c] == r) && (c == r ==> c in leader) {
      assert GainsFor(gains, leader, r) == map[];
    }
  }

  lemma GainsForStep(gains: map<Creature, int>, rest: set<Creature>, c: Creature, leader: map<Creature, Creature>,
                     r: Creature)
    requires c in rest
    ensures Sum(GainsFor(gains - (rest - {c}), leader, r), Self)
         == Sum(GainsFor(gains - rest, leader, r), Self) + (if Recipient(leader, c) == r then Entry(gains, c) else 0)
  {
    var more, less := GainsFor(gains - (rest - {c}), leader, r), GainsFor(gains - rest, leader, r);
    if c in gains && Recipient(leader, c) == r {
      Split(more, c);
      assert more - {c} == less;
    } else {
      assert more == less;
    }
  }

  /** The experience map when the attackers in `rest` are still to come. */
  ghost predicate Shared(gains: map<Creature, int>, rest: set<Creature>, leader: map<Creature, Creature>,
                         experienceMap: map<Creature, int>) {
    && Sum(experienceMap, Self) == Sum(gains - rest, Self)
    && forall r :: Entry(experienceMap, r) == Sum(GainsFor(gains - rest, leader, r), Self)
  }

  lemma SharedStep(gains: map<Creature, int>, rest: set<Creature>, leader: map<Creature, Creature>,
                   experienceMap: map<Creature, int>, c: Creature)
    requires Shared(gains, rest, leader, experienceMap) && c in rest
    ensures Shared(gains, rest - {c}, leader, if c !in gains then experienceMap
                                              else Award(experienceMap, Recipient(leader, c), gains[c]))
  {
    PartStep(gains, rest, c, c);
    AwardAdds(experienceMap, Recipient(leader, c), Entry(gains, c));
    forall r {
      GainsForStep(gains, rest, c, leader, r);
    }
  }

  // ---------------------------------------------------------------- the creature

  class Victim {
    const id: Creature
    var damageMap: DamageMap

    constructor (id: Creature)
      ensures this.id == id && damageMap == map[]
    {
      this.id, damageMap := id, map[];
    }

    /** `addDamagePoints`. */
    method AddDamagePoints(attacker: Creature, damagePoints: int, now: nat)
      modifies this`damageMap
      ensures damagePoints <= 0 ==> damageMap == old(damageMap)
      ensures damagePoints > 0 && attacker != 0 ==> TotalDealt(damageMap) == TotalDealt(old(damageMap)) + damagePoints
      ensures damagePoints > 0 ==>
                damageMap == old(damageMap)[attacker := Damage(damagePoints + (if attacker in old(damageMap)
                                                               then old(damageMap)[attacker].total else 0), now)]
    {
      if damagePoints <= 0 {
        return;
      }
      ghost var a := Dealt(damageMap);
      var before := if attacker in damageMap then damageMap[attacker].total else 0;
      damageMap := damageMap[attacker := Damage(before + damagePoints, now)];
      if attacker != 0 {
        assert Dealt(damageMap) == a[attacker := before + damagePoints];
        AwardAdds(a, attacker, damagePoints);
      }
    }

    /** The loop of `getDamageRatio`, as numerator and denominator. */
    method GetDamageRatio(attacker: Creature) returns (attackerDamage: int, totalDamage: int)
      ensures totalDamage == TotalDealt(damageMap) % U32
      ensures attackerDamage == Entry(Dealt(damageMap), attacker)
    {
      ghost var a := Dealt(damageMap);
      var rest := damageMap.Keys;
      totalDamage, attackerDamage := 0, 0;
      assert a - rest == map[];
      while rest != {}
        invariant rest <= damageMap.Keys
        invariant totalDamage == Sum(a - rest, Self) % U32
        invariant attackerDamage == Entry(a - rest, attacker)
        decreases rest
      {
        var c :| c in rest;
        var info := damageMap[c];
        PartStep(a, rest, c, attacker);
        WrapAdd(Sum(a - rest, Self), Entry(a, c));
        rest := rest - {c};
        if c != 0 && info.total != 0 {
          totalDamage := (totalDamage + info.total) % U32;
          if c == attacker {
            attackerDamage := attackerDamage + info.total;
          }
        }
      }
      assert a - rest == a;
    }

    /** The experience loop of `onDeath`: each recipient gains what the attackers in its charge
        gained. However they are grouped, the sum is what all attackers gained. */
    method ShareExperience(online: set<Creature>, leader: map<Creature, Creature>, lost: nat)
      returns (experienceMap: map<Creature, int>)
      ensures Sum(experienceMap, Self) == HandedOut(damageMap, online, id, lost)
      ensures forall r :: Entry(experienceMap, r) == Sum(GainsFor(Gains(damageMap, online, id, lost), leader, r), Self)
    {
      ghost var gains := Gains(damageMap, online, id, lost);
      var rest := damageMap.Keys;
      experienceMap := map[];
      assert gains - rest == map[];
      assert forall r :: GainsFor(map[], leader, r) == map[];
      while rest != {}
        invariant rest <= damageMap.Keys && Shared(gains, rest, leader, experienceMap)
        decreases rest
      {
        var c :| c in rest;
        var info := damageMap[c];
        SharedStep(gains, rest, leader, experienceMap, c);
        rest := rest - {c};
        if c != 0 && c in online && info.total != 0 && info.ticks != 0 && c != id {
          var damage, total := GetDamageRatio(c);
          var gainExp := if total == 0 then 0 else damage * lost / total;
          experienceMap := Award(experienceMap, Recipient(leader, c), gainExp);
        }
      }
      assert gains - rest == gains;
    }
  }

  lemma WrapAdd(x: int, y: int)
    ensures (x % U32 + y) % U32 == (x + y) % U32
  {
    var q := x / U32;
    assert x == q * U32 + x % U32;
    assert x + y == q * U32 + (x % U32 + y);
  }

  /** Counting one more entry of a map. */
  lemma PartStep(a: map<Creature, int>, rest: set<Creature>, c: Creature, x: Creature)
    requires c in rest
    ensures Sum(a - (rest - {c}), Self) == Sum(a - rest, Self) + Entry(a, c)
    ensures Entry(a - (rest - {c}), x) == Entry(a - rest, x) + (if x == c then Entry(a, c) else 0)
  {
    if c in a {
      Split(a - (rest - {c}), c);
      assert a - (rest - {c}) - {c} == a - rest;
    } else {
      assert a - (rest - {c}) == a - rest;
    }
  }
}
