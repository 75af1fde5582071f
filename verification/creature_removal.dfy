/** Masters, summons, and the recursive removal of a creature with everything it summoned. */
module CreatureRemoval {
  import opened Basics

  type Creature = nat

  /** `delisted` records, in order, the creatures taken off their lists by a removal. */
  datatype World = World(all: set<Creature>, master: map<Creature, Creature>,
                         summons: map<Creature, seq<Creature>>,
                         removed: set<Creature>, delisted: seq<Creature>)

  ghost predicate WellFormed(w: World) {
    && w.summons.Keys == w.all && w.master.Keys <= w.all && w.removed <= w.all
    && (forall s :: s in w.master ==> w.master[s] in w.all)
    && (forall m, s :: m in w.all && s in w.summons[m] ==> s in w.all)
  }

  predicate IsMaster(w: World, s: Creature, m: Creature) {
    s in w.master && w.master[s] == m
  }

  /** A creature occurs among the summons of its master exactly once, and of nobody else. */
  ghost predicate Linked(w: World) {
    && WellFormed(w)
    && forall m, s :: m in w.all && s in w.all ==>
         multiset(w.summons[m])[s] == if IsMaster(w, s, m) then 1 else 0
  }

  // ---------------------------------------------------------------- setMaster

  /** `std::ranges::find` and `erase`. */
  function EraseFirst(list: seq<Creature>, c: Creature): seq<Creature> {
    if list == [] then [] else if list[0] == c then list[1..] else [list[0]] + EraseFirst(list[1..], c)
  }

  lemma {:induction false} EraseFirstCount(list: seq<Creature>, c: Creature, x: Creature)
    ensures multiset(EraseFirst(list, c))[x]
         == multiset(list)[x] - (if x == c && c in list then 1 else 0)
    ensures x in EraseFirst(list, c) ==> x in list
  {
    if list != [] {
      assert list == [list[0]] + list[1..];
      EraseFirstCount(list[1..], c, x);
    }
  }

  /** `setMaster`. With the old master as the added one, the summon moves to the end of the list. */
  function Assigned(w: World, c: Creature, newMaster: Option<Creature>): World
    requires newMaster.Some? ==> newMaster.value in w.summons
  {
    var oldMaster := if c in w.master then Some(w.master[c]) else None;
    if newMaster == None && oldMaster == None then w
    else
      var summons := if newMaster.Some? then w.summons[newMaster.value := w.summons[newMaster.value] + [c]]
                     else w.summons;
      w.(master := if newMaster.Some? then w.master[c := newMaster.value] else w.master - {c},
         summons := if oldMaster.Some? && oldMaster.value in summons
                    then summons[oldMaster.value := EraseFirst(summons[oldMaster.value], c)] else summons)
  }

  /** The list of `m` after the new summon has been appended. */
  function Grown(w: World, c: Creature, newMaster: Option<Creature>, m: Creature): seq<Creature>
    requires m in w.summons
  {
    if newMaster == Some(m) then w.summons[m] + [c] else w.summons[m]
  }

  lemma SetMasterList(w: World, c: Creature, newMaster: Option<Creature>, m: Creature)
    requires WellFormed(w) && m in w.all && (newMaster.Some? ==> newMaster.value in w.all)
    ensures var w' := Assigned(w, c, newMaster);
            m in w'.summons
            && w'.summons[m] == if IsMaster(w, c, m) then EraseFirst(Grown(w, c, newMaster, m), c)
                                else Grown(w, c, newMaster, m)
  {
  }

  lemma SetMasterCount(w: World, c: Creature, newMaster: Option<Creature>, m: Creature, s: Creature)
    requires Linked(w) && c in w.all && (newMaster.Some? ==> newMaster.value in w.all)
    requires m in w.all && s in w.all
    ensures var w' := Assigned(w, c, newMaster);
            m in w'.summons && multiset(w'.summons[m])[s] == if IsMaster(w', s, m) then 1 else 0
  {
    var grown := Grown(w, c, newMaster, m);
    SetMasterList(w, c, newMaster, m);
    GrownCount(w, c, newMaster, m, s);
    if IsMaster(w, c, m) {
      GrownCount(w, c, newMaster, m, c);
      EraseFirstCount(grown, c, s);
      assert c in grown <==> c in multiset(grown);
    }
  }

  lemma GrownCount(w: World, c: Creature, newMaster: Option<Creature>, m: Creature, s: Creature)
    requires Linked(w) && m in w.all && s in w.all
    ensures multiset(Grown(w, c, newMaster, m))[s]
         == (if IsMaster(w, s, m) then 1 else 0) + (if newMaster == Some(m) && s == c then 1 else 0)
  {
    assert multiset(w.summons[m] + [c]) == multiset(w.summons[m]) + multiset{c};
  }

  lemma SetMasterKeeps(w: World, c: Creature, newMaster: Option<Creature>)
    requires Linked(w) && c in w.all && (newMaster.Some? ==> newMaster.value in w.all)
    ensures Linked(Assigned(w, c, newMaster))
    ensures Assigned(w, c, newMaster).master
         == if newMaster.Some? then w.master[c := newMaster.value] else w.master - {c}
  {
    var w' := Assigned(w, c, newMaster);
    forall m, s | m in w.all && s in w.all
      ensures multiset(w'.summons[m])[s] == if IsMaster(w', s, m) then 1 else 0
    {
      SetMasterCount(w, c, newMaster, m, s);
    }
    forall m, s | m in w.all && s in w'.summons[m]
      ensures s in w.all
    {
      SetMasterList(w, c, newMaster, m);
      EraseFirstCount(Grown(w, c, newMaster, m), c, s);
    }
  }

  // ---------------------------------------------------------------- removeCreature

  /** The unlinking from a living master. */
  function Unlink(w: World, c: Creature): World {
    if c in w.master && w.master[c] !in w.removed then Assigned(w, c, None) else w
  }

  function Marked(w: World, c: Creature): World {
    w.(removed := w.removed + {c}, delisted := w.delisted + [c])
  }

  lemma UnlinkKeeps(w: World, c: Creature)
    requires WellFormed(w)
    ensures WellFormed(Unlink(w, c)) && Unlink(w, c).all == w.all && Unlink(w, c).removed == w.removed
    ensures Unlink(w, c).delisted == w.delisted
    ensures forall x, s :: x in w.all && s in Unlink(w, c).summons[x] ==> s in w.summons[x]
  {
    if Unlink(w, c) != w {
      forall s | s in EraseFirst(w.summons[w.master[c]], c)
        ensures s in w.summons[w.master[c]]
      {
        EraseFirstCount(w.summons[w.master[c]], c, s);
      }
    }
  }

  /** `removeCreature`. */
  ghost function Remove(w: World, c: Creature): (w': World)
    requires WellFormed(w) && c in w.all
    ensures WellFormed(w') && w'.all == w.all && w.removed <= w'.removed && c in w'.removed
    decreases w.all - w.removed, 0
  {
    if c in w.removed then w
    else
      UnlinkKeeps(w, c);
      var w1 := Marked(Unlink(w, c), c);
      RemoveAll(w1, w1.summons[c])
  }

  /** The loop over the summons. */
  ghost function RemoveAll(w: World, list: seq<Creature>): (w': World)
    requires WellFormed(w) && forall s :: s in list ==> s in w.all
    ensures WellFormed(w') && w'.all == w.all && w.removed <= w'.removed
    ensures forall s :: s in list ==> s in w'.removed
    decreases w.all - w.removed, |list|
  {
    if list == [] then w else RemoveAll(Remove(w, list[0]), list[1..])
  }

  /** All creatures of the list have been summoned by removed creatures. */
  predicate Orphans(w: World, list: seq<Creature>) {
    forall s :: s in list ==> s in w.master && w.master[s] in w.removed
  }

  /** Removing orphans changes no link at all. In particular, the loop over a removed creature's
      summons never changes the list it runs over. */
  lemma {:induction false} OrphansKeepLinks(w: World, list: seq<Creature>)
    requires Linked(w) && (forall s :: s in list ==> s in w.all) && Orphans(w, list)
    ensures var w' := RemoveAll(w, list); w'.summons == w.summons && w'.master == w.master && Linked(w')
    decreases w.all - w.removed, |list|
  {
    if list != [] {
      var c := list[0];
      if c !in w.removed {
        assert Unlink(w, c) == w;
        SummonsAreOrphans(Marked(w, c), c);
        OrphansKeepLinks(Marked(w, c), w.summons[c]);
      }
      OrphansKeepLinks(Remove(w, c), list[1..]);
    }
  }

  lemma SummonsAreOrphans(w: World, c: Creature)
    requires Linked(w) && c in w.all && c in w.removed
    ensures Orphans(w, w.summons[c])
  {
    forall s | s in w.summons[c]
      ensures IsMaster(w, s, c)
    {
      assert s in multiset(w.summons[c]);
    }
  }

  /** A creature with a living master is off that master's list, on which the others stay in order, and
      has no master; no other link has changed. Without a master, or with one that has been removed, no
      link has changed at all. */
  ghost predicate LinkGone(w: World, w': World, c: Creature)
    requires WellFormed(w) && WellFormed(w') && w'.all == w.all
  {
    if c in w.master && w.master[c] !in w.removed then
      && w'.master == w.master - {c}
      && c !in w'.summons[w.master[c]] && w'.summons[w.master[c]] == Without(w.summons[w.master[c]], c)
      && forall m :: m in w.all && m != w.master[c] ==> w'.summons[m] == w.summons[m]
    else w'.master == w.master && w'.summons == w.summons
  }

  lemma RemoveLinks(w: World, c: Creature)
    requires Linked(w) && c in w.all && c !in w.removed
    ensures Linked(Remove(w, c)) && LinkGone(w, Remove(w, c), c)
  {
    UnlinkKeeps(w, c);
    UnlinkLinked(w, c);
    UnlinkLinks(w, c);
    MarkedOrphans(Unlink(w, c), c);
    SameLinks(w, Unlink(w, c), Remove(w, c), c);
  }

  lemma SameLinks(w: World, w1: World, w': World, c: Creature)
    requires WellFormed(w) && WellFormed(w1) && WellFormed(w') && w1.all == w.all == w'.all
    requires LinkGone(w, w1, c) && w'.master == w1.master && w'.summons == w1.summons
    ensures LinkGone(w, w', c)
  {
  }

  lemma UnlinkLinks(w: World, c: Creature)
    requires Linked(w) && c in w.all && WellFormed(Unlink(w, c))
    ensures Unlink(w, c).all == w.all && LinkGone(w, Unlink(w, c), c)
  {
    if c in w.master && w.master[c] !in w.removed {
      var m := w.master[c];
      SetMasterList(w, c, None, m);
      ErasesOnly(w, m, c);
      NotWithout(w.summons[m], c);
    }
  }

  lemma {:induction false} NotWithout(list: seq<Creature>, c: Creature)
    ensures c !in Without(list, c)
  {
    if list != [] {
      NotWithout(list[1..], c);
    }
  }

  /** A list without any occurrence of a creature, otherwise as it is. */
  function Without(list: seq<Creature>, c: Creature): seq<Creature> {
    if list == [] then [] else (if list[0] == c then [] else [list[0]]) + Without(list[1..], c)
  }

  lemma {:induction false} WithoutIs(list: seq<Creature>, c: Creature)
    ensures multiset(list)[c] == 0 ==> Without(list, c) == list
    ensures multiset(list)[c] == 1 ==> Without(list, c) == EraseFirst(list, c)
  {
    if list != [] {
      assert list == [list[0]] + list[1..];
      WithoutIs(list[1..], c);
    }
  }

  /** In linked worlds, erasing the first occurrence erases the only one. */
  lemma ErasesOnly(w: World, m: Creature, c: Creature)
    requires Linked(w) && m in w.all && c in w.all && IsMaster(w, c, m)
    ensures EraseFirst(w.summons[m], c) == Without(w.summons[m], c)
  {
    WithoutIs(w.summons[m], c);
  }

  /** What `setMaster` does to the lists: the creature leaves the old master's and is last in the new
      master's, in which it may have been before; nobody else moves. */
  lemma SetMasterLists(w: World, c: Creature, newMaster: Option<Creature>, m: Creature)
    requires Linked(w) && c in w.all && m in w.all && (newMaster.Some? ==> newMaster.value in w.all)
    ensures var w' := Assigned(w, c, newMaster);
            && m in w'.summons
            && w'.summons[m] == (if IsMaster(w, c, m) then Without(w.summons[m], c) else w.summons[m])
                                + (if newMaster == Some(m) then [c] else [])
  {
    SetMasterList(w, c, newMaster, m);
    var list := w.summons[m];
    if IsMaster(w, c, m) {
      ErasesOnly(w, m, c);
      EraseThenAppend(list, c);
    }
  }

  lemma {:induction false} EraseThenAppend(list: seq<Creature>, c: Creature)
    ensures c in list ==> EraseFirst(list + [c], c) == EraseFirst(list, c) + [c]
    ensures multiset(list)[c] > 0 ==> c in list
  {
    if list != [] {
      assert (list + [c])[0] == list[0] && (list + [c])[1..] == list[1..] + [c];
      EraseThenAppend(list[1..], c);
      assert list == [list[0]] + list[1..];
    }
  }

  /** Marking a creature removed turns its summons into orphans, and removing them keeps the links. */
  lemma MarkedOrphans(w: World, c: Creature)
    requires Linked(w) && c in w.all
    ensures var w1 := Marked(w, c);
            Linked(w1) && Orphans(w1, w1.summons[c])
            && var w' := RemoveAll(w1, w1.summons[c]);
            Linked(w') && w'.master == w.master && w'.summons == w.summons
  {
    var w1 := Marked(w, c);
    assert Linked(w1) by {
      assert forall m, s :: IsMaster(w1, s, m) <==> IsMaster(w, s, m);
    }
    SummonsAreOrphans(w1, c);
    OrphansKeepLinks(w1, w1.summons[c]);
  }

  lemma UnlinkLinked(w: World, c: Creature)
    requires Linked(w) && c in w.all
    ensures Linked(Unlink(w, c))
  {
    if c in w.master && w.master[c] !in w.removed {
      SetMasterKeeps(w, c, None);
    }
  }

  // ---------------------------------------------------------------- exactly once

  /** `after` extends `before` by distinct creatures: those newly removed. */
  ghost predicate RemovedOnce(before: World, after: World) {
    && before.delisted <= after.delisted
    && var added := after.delisted[|before.delisted|..];
    && (forall i, j :: 0 <= i < j < |added| ==> added[i] != added[j])
    && (forall x :: x in added <==> x in after.removed && x !in before.removed)
  }

  lemma RemovedOnceChain(a: World, b: World, c: World)
    requires RemovedOnce(a, b) && RemovedOnce(b, c) && a.removed <= b.removed <= c.removed
    ensures RemovedOnce(a, c)
  {
    var first, second := b.delisted[|a.delisted|..], c.delisted[|b.delisted|..];
    var added := c.delisted[|a.delisted|..];
    assert added == first + second;
    forall i, j | 0 <= i < j < |added|
      ensures added[i] != added[j]
    {
      if i < |first| <= j {
        assert first[i] in first && second[j - |first|] in second;
      }
    }
  }

  lemma {:induction false} RemoveOnce(w: World, c: Creature)
    requires WellFormed(w) && c in w.all
    ensures RemovedOnce(w, Remove(w, c))
    decreases w.all - w.removed, 0
  {
    if c !in w.removed {
      UnlinkKeeps(w, c);
      var w1 := Marked(Unlink(w, c), c);
      assert w1.delisted[|w.delisted|..] == [c];
      RemoveAllOnce(w1, w1.summons[c]);
      RemovedOnceChain(w, w1, Remove(w, c));
    }
  }

  /** The creature itself comes first, and what is removed with it afterwards. */
  lemma DelistedFirst(w: World, c: Creature)
    requires WellFormed(w) && c in w.all && c !in w.removed
    ensures w.delisted + [c] <= Remove(w, c).delisted
  {
    UnlinkKeeps(w, c);
    var w1 := Marked(Unlink(w, c), c);
    RemoveAllOnce(w1, w1.summons[c]);
  }

  lemma {:induction false} RemoveAllOnce(w: World, list: seq<Creature>)
    requires WellFormed(w) && forall s :: s in list ==> s in w.all
    ensures RemovedOnce(w, RemoveAll(w, list))
    decreases w.all - w.removed, |list|
  {
    if list != [] {
      RemoveOnce(w, list[0]);
      RemoveAllOnce(Remove(w, list[0]), list[1..]);
      RemovedOnceChain(w, Remove(w, list[0]), RemoveAll(w, list));
    }
  }

  // ---------------------------------------------------------------- exactly the transitive summons

  /** A chain of creatures, none removed before, each summoned by the one in front of it. */
  ghost predicate Chain(w: World, p: seq<Creature>)
    requires WellFormed(w)
  {
    && p != []
    && (forall i :: 0 <= i < |p| ==> p[i] in w.all && p[i] !in w.removed)
    && (forall i :: 0 <= i < |p| - 1 ==> p[i + 1] in w.summons[p[i]])
  }

  ghost predicate Reaches(w: World, c: Creature, x: Creature)
    requires WellFormed(w)
  {
    exists p :: Chain(w, p) && p[0] == c && p[|p| - 1] == x
  }

  lemma ReachesSelf(w: World, c: Creature)
    requires WellFormed(w) && c in w.all && c !in w.removed
    ensures Reaches(w, c, c)
  {
    assert Chain(w, [c]) && [c][0] == c;
  }

  lemma ReachesThrough(w: World, c: Creature, s: Creature, x: Creature)
    requires WellFormed(w) && c in w.all && c !in w.removed && s in w.summons[c] && Reaches(w, s, x)
    ensures Reaches(w, c, x)
  {
    var p :| Chain(w, p) && p[0] == s && p[|p| - 1] == x;
    var q := [c] + p;
    assert forall i :: 1 <= i < |q| ==> q[i] == p[i - 1];
    assert Chain(w, q) && q[0] == c && q[|q| - 1] == x;
  }

  /** Chains in a world with more removed creatures and fewer links are chains. */
  lemma ReachesWeaker(w: World, v: World, c: Creature, x: Creature)
    requires WellFormed(w) && WellFormed(v) && v.all == w.all && w.removed <= v.removed && Reaches(v, c, x)
    requires forall m, s :: m in w.all && s in v.summons[m] ==> s in w.summons[m]
    ensures Reaches(w, c, x)
  {
    var p :| Chain(v, p) && p[0] == c && p[|p| - 1] == x;
    assert Chain(w, p);
  }

  ghost predicate FewerLinks(w: World, v: World)
    requires WellFormed(w) && WellFormed(v)
  {
    v.all == w.all && forall m, s :: m in w.all && s in v.summons[m] ==> s in w.summons[m]
  }

  /** Only what the creature reaches is removed. */
  lemma {:induction false} RemoveSound(w: World, c: Creature, x: Creature)
    requires WellFormed(w) && c in w.all && x in Remove(w, c).removed && x !in w.removed
    ensures Reaches(w, c, x) && FewerLinks(w, Remove(w, c))
    decreases w.all - w.removed, 0
  {
    UnlinkKeeps(w, c);
    var w1 := Marked(Unlink(w, c), c);
    RemoveAllFewer(w1, w1.summons[c]);
    if x == c {
      ReachesSelf(w, c);
    } else {
      var s := RemoveAllSound(w1, w1.summons[c], x);
      ReachesWeaker(w, w1, s, x);
      ReachesThrough(w, c, s, x);
    }
  }

  lemma {:induction false} RemoveAllSound(w: World, list: seq<Creature>, x: Creature) returns (s: Creature)
    requires WellFormed(w) && forall s :: s in list ==> s in w.all
    requires x in RemoveAll(w, list).removed && x !in w.removed
    ensures s in list && Reaches(w, s, x)
    decreases w.all - w.removed, |list|
  {
    var w1 := Remove(w, list[0]);
    if x in w1.removed {
      s := list[0];
      RemoveSound(w, s, x);
    } else {
      s := RemoveAllSound(w1, list[1..], x);
      RemoveFewer(w, list[0]);
      ReachesWeaker(w, w1, s, x);
    }
  }

  lemma {:induction false} RemoveFewer(w: World, c: Creature)
    requires WellFormed(w) && c in w.all
    ensures FewerLinks(w, Remove(w, c))
    decreases w.all - w.removed, 0
  {
    if c !in w.removed {
      UnlinkKeeps(w, c);
      var w1 := Marked(Unlink(w, c), c);
      RemoveAllFewer(w1, w1.summons[c]);
    }
  }

  lemma {:induction false} RemoveAllFewer(w: World, list: seq<Creature>)
    requires WellFormed(w) && forall s :: s in list ==> s in w.all
    ensures FewerLinks(w, RemoveAll(w, list))
    decreases w.all - w.removed, |list|
  {
    if list != [] {
      RemoveFewer(w, list[0]);
      RemoveAllFewer(Remove(w, list[0]), list[1..]);
    }
  }

  /** The summons of a newly removed creature are all removed. */
  lemma {:induction false} RemoveClosed(w: World, c: Creature, x: Creature, s: Creature)
    requires WellFormed(w) && c in w.all && x in Remove(w, c).removed && x !in w.removed
    requires s in w.summons[x]
    ensures s in Remove(w, c).removed
    decreases w.all - w.removed, 0
  {
    UnlinkKeeps(w, c);
    var w1 := Marked(Unlink(w, c), c);
    if s != c {
      UnlinkOnly(w, c, x, s);
      if x != c {
        RemoveAllClosed(w1, w1.summons[c], x, s);
      }
    }
  }

  /** Unlinking takes the creature out of lists, nothing else. */
  lemma UnlinkOnly(w: World, c: Creature, x: Creature, s: Creature)
    requires WellFormed(w) && x in w.all && s in w.summons[x] && s != c
    ensures s in Unlink(w, c).summons[x]
  {
    EraseFirstCount(w.summons[x], c, s);
    assert s in multiset(w.summons[x]);
    assert s in EraseFirst(w.summons[x], c) <==> s in multiset(EraseFirst(w.summons[x], c));
  }

  lemma {:induction false} RemoveAllClosed(w: World, list: seq<Creature>, x: Creature, s: Creature)
    requires WellFormed(w) && forall y :: y in list ==> y in w.all
    requires x in RemoveAll(w, list).removed && x !in w.removed && s in w.summons[x]
    ensures s in RemoveAll(w, list).removed
    decreases w.all - w.removed, |list|
  {
    var w1 := Remove(w, list[0]);
    if x in w1.removed {
      RemoveClosed(w, list[0], x, s);
    } else if s !in w1.removed {
      RemoveKeepsEdge(w, list[0], x, s);
      RemoveAllClosed(w1, list[1..], x, s);
    }
  }

  /** A link to a creature that survives survives. */
  lemma {:induction false} RemoveKeepsEdge(w: World, c: Creature, x: Creature, s: Creature)
    requires WellFormed(w) && c in w.all && x in w.all && s in w.summons[x] && s !in Remove(w, c).removed
    ensures s in Remove(w, c).summons[x]
    decreases w.all - w.removed, 0
  {
    if c !in w.removed {
      UnlinkKeeps(w, c);
      UnlinkOnly(w, c, x, s);
      var w1 := Marked(Unlink(w, c), c);
      RemoveAllKeepsEdge(w1, w1.summons[c], x, s);
    }
  }

  lemma {:induction false} RemoveAllKeepsEdge(w: World, list: seq<Creature>, x: Creature, s: Creature)
    requires WellFormed(w) && forall y :: y in list ==> y in w.all
    requires x in w.all && s in w.summons[x] && s !in RemoveAll(w, list).removed
    ensures s in RemoveAll(w, list).summons[x]
    decreases w.all - w.removed, |list|
  {
    if list != [] {
      RemoveKeepsEdge(w, list[0], x, s);
      RemoveAllKeepsEdge(Remove(w, list[0]), list[1..], x, s);
    }
  }

  lemma {:induction false} ChainRemoved(w: World, c: Creature, p: seq<Creature>, i: nat)
    requires WellFormed(w) && c in w.all && Chain(w, p) && p[0] == c && i < |p|
    ensures p[i] in Remove(w, c).removed
  {
    if i > 0 {
      ChainRemoved(w, c, p, i - 1);
      RemoveClosed(w, c, p[i - 1], p[i]);
    }
  }

  /** On every summon graph, cyclic or not, a removal removes exactly the creatures it reaches. */
  lemma RemovesExactlyReached(w: World, c: Creature, x: Creature)
    requires WellFormed(w) && c in w.all && c !in w.removed
    ensures x in Remove(w, c).removed <==> x in w.removed || Reaches(w, c, x)
  {
    if x !in w.removed && x in Remove(w, c).removed {
      RemoveSound(w, c, x);
    }
    if Reaches(w, c, x) {
      var p :| Chain(w, p) && p[0] == c && p[|p| - 1] == x;
      ChainRemoved(w, c, p, |p| - 1);
    }
  }

  // ---------------------------------------------------------------- the game's methods

  class Creatures {
    const all: set<Creature>
    var master: map<Creature, Creature>
    var summons: map<Creature, seq<Creature>>
    var removed: set<Creature>
    var delisted: seq<Creature>

    ghost function View(): World
      reads this
    {
      World(all, master, summons, removed, delisted)
    }

    constructor (all: set<Creature>)
      ensures Linked(View()) && View() == World(all, map[], map c | c in all :: [], {}, [])
    {
      this.all, master, summons, removed, delisted := all, map[], map c | c in all :: [], {}, [];
    }

    method SetMaster(c: Creature, newMaster: Option<Creature>) returns (ok: bool)
      requires Linked(View()) && c in all && (newMaster.Some? ==> newMaster.value in all)
      modifies this`master, this`summons
      ensures View() == Assigned(old(View()), c, newMaster) && Linked(View())
      ensures ok == (newMaster.Some? || c in old(master))
    {
      SetMasterKeeps(View(), c, newMaster);
      var oldMaster := if c in master then Some(master[c]) else None;
      if newMaster == None && oldMaster == None {
        return false;
      }
      if newMaster.Some? {
        summons := summons[newMaster.value := summons[newMaster.value] + [c]];
      }
      master := if newMaster.Some? then master[c := newMaster.value] else master - {c};
      if oldMaster.Some? {
        summons := summons[oldMaster.value := EraseFirst(summons[oldMaster.value], c)];
      }
      ok := true;
    }

    method RemoveCreature(c: Creature) returns (ok: bool)
      requires Linked(View()) && c in all
      modifies this
      ensures View() == Remove(old(View()), c) && Linked(View())
      ensures ok == (c !in old(removed))
      ensures ok ==> LinkGone(old(View()), View(), c)
      decreases all - removed, 0
    {
      if c in removed {
        return false;
      }
      ghost var w := View();
      RemoveLinks(w, c);
      UnlinkLinked(w, c);
      MarkedOrphans(Unlink(w, c), c);
      if c in master && master[c] !in removed {
        var unlinked := SetMaster(c, None);
      }
      removed := removed + {c};
      delisted := delisted + [c];
      assert View() == Marked(Unlink(w, c), c);
      RemoveSummons(c);
      ok := true;
    }

    /** The loop of `removeCreature`. It runs over the live list of summons, which nothing inside
        it changes: see the invariant. */
    method RemoveSummons(c: Creature)
      requires Linked(View()) && c in removed && Orphans(View(), summons[c])
      modifies this
      ensures View() == RemoveAll(old(View()), old(summons[c])) && Linked(View())
      decreases all - removed, 1
    {
      ghost var w1, before := View(), summons[c];
      assert before[0..] == before;
      for i := 0 to |summons[c]|
        invariant Underway(w1, View(), before, i) && summons[c] == before
      {
        ghost var w := View();
        var summon := summons[c][i];
        OneOrphan(w1, w, before, i);
        assert all - removed <= all - w1.removed;
        var again := RemoveCreature(summon);
        assert Underway(w1, View(), before, i + 1);
      }
    }
  }

  /** Some of the summons in the list have been removed, and no list of summons has changed. */
  ghost predicate Underway(w1: World, w: World, list: seq<Creature>, i: nat) {
    && Linked(w1) && Linked(w) && (forall s :: s in list ==> s in w1.all) && Orphans(w, list) && i <= |list|
    && w.all == w1.all && w1.removed <= w.removed && RemoveAll(w, list[i..]) == RemoveAll(w1, list)
  }

  /** One round of the loop. */
  lemma OneOrphan(w1: World, w: World, list: seq<Creature>, i: nat)
    requires Underway(w1, w, list, i) && i < |list|
    ensures list[i] in w.all
    ensures Linked(Remove(w, list[i])) ==> Underway(w1, Remove(w, list[i]), list, i + 1)
    ensures Remove(w, list[i]).summons == w.summons
  {
    assert list[i..][0] == list[i] && list[i..][1..] == list[i + 1..];
    OrphansKeepLinks(w, [list[i]]);
    assert RemoveAll(w, [list[i]]) == RemoveAll(Remove(w, list[i]), []);
  }
}
