/** Paying with coins: `Game::removeMoney` and `Game::addMoney`. */
module Money {
  import opened Basics

  datatype Kind = Gold | Platinum | Crystal | NotCoin
  {
    function Unit(): nat {
      match this
      case Gold => 1
      case Platinum => 100
      case Crystal => 10000
      case NotCoin => 0
    }
  }

  datatype Stack = Stack(kind: Kind, count: nat)
  {
    /** `Item::getWorth`. */
    function Worth(): nat {
      kind.Unit() * count
    }
  }

  /** What lies in a cylinder: an item, by identity, or a container with more of the same. */
  datatype Thing = Leaf(id: nat) | Box(inner: seq<Thing>)

  /** The items that exist; an identity that is missing here has been removed from the game. */
  type Stacks = map<nat, Stack>

  function WorthOf(id: nat, stacks: Stacks): nat {
    if id in stacks then stacks[id].Worth() else 0
  }

  // ---------------------------------------------------------------- depth first: getMoney

  /** `Player::getMoney`: the recursive count. */
  function GetMoney(things: seq<Thing>, stacks: Stacks): nat {
    if things == [] then 0
    else (match things[0]
          case Leaf(id) => WorthOf(id, stacks)
          case Box(inner) => GetMoney(inner, stacks)) + GetMoney(things[1..], stacks)
  }

  /** The identities in a forest, depth first. */
  function Ids(things: seq<Thing>): seq<nat> {
    if things == [] then []
    else (match things[0] case Leaf(id) => [id] case Box(inner) => Ids(inner)) + Ids(things[1..])
  }

  function Total(ids: seq<nat>, stacks: Stacks): nat {
    if ids == [] then 0 else WorthOf(ids[0], stacks) + Total(ids[1..], stacks)
  }

  lemma {:induction false} TotalConcat(a: seq<nat>, b: seq<nat>, stacks: Stacks)
    ensures Total(a + b, stacks) == Total(a, stacks) + Total(b, stacks)
  {
    if a == [] {
      assert a + b == b;
    } else {
      assert (a + b)[1..] == a[1..] + b;
      TotalConcat(a[1..], b, stacks);
    }
  }

  lemma {:induction false} GetMoneyIsTotal(things: seq<Thing>, stacks: Stacks)
    ensures GetMoney(things, stacks) == Total(Ids(things), stacks)
  {
    if things != [] {
      GetMoneyIsTotal(things[1..], stacks);
      match things[0] {
        case Leaf(id) =>
          TotalConcat([id], Ids(things[1..]), stacks);
          assert Total([id], stacks) == WorthOf(id, stacks) + Total([id][1..], stacks);
        case Box(inner) =>
          GetMoneyIsTotal(inner, stacks);
          TotalConcat(Ids(inner), Ids(things[1..]), stacks);
      }
    }
  }

  // ---------------------------------------------------------------- breadth first: removeMoney

  function Leaves(things: seq<Thing>): seq<nat> {
    if things == [] then []
    else (if things[0].Leaf? then [things[0].id] else []) + Leaves(things[1..])
  }

  lemma LeavesStep(things: seq<Thing>)
    requires things != []
    ensures things[0].Leaf? ==> Leaves(things) == [things[0].id] + Leaves(things[1..])
    ensures things[0].Box? ==> Leaves(things) == Leaves(things[1..])
  {
  }

  /** What the next thing of a list adds to the queue, the money map and the count. */
  lemma ThingStep(list: seq<Thing>, i: nat, stacks: Stacks, m: seq<Entry>)
    requires i < |list|
    ensures list[i].Box? ==>
              Boxes(list[i..]) == [list[i].inner] + Boxes(list[i + 1..])
              && Leaves(list[i..]) == Leaves(list[i + 1..])
    ensures list[i].Leaf? ==>
              Boxes(list[i..]) == Boxes(list[i + 1..])
              && Catalog(Leaves(list[i..]), stacks, m)
                 == Catalog(Leaves(list[i + 1..]), stacks, Listed(m, list[i].id, stacks))
              && Total(Leaves(list[i..]), stacks) == WorthOf(list[i].id, stacks) + Total(Leaves(list[i + 1..]), stacks)
  {
    assert list[i..][1..] == list[i + 1..];
    LeavesStep(list[i..]);
    if list[i].Leaf? {
      assert Leaves(list[i..])[1..] == Leaves(list[i + 1..]);
      assert Leaves(list[i..])[0] == list[i].id;
    }
  }

  function Boxes(things: seq<Thing>): seq<seq<Thing>> {
    if things == [] then []
    else (if things[0].Box? then [things[0].inner] else []) + Boxes(things[1..])
  }

  function Containers(things: seq<Thing>): nat {
    if things == [] then 0
    else (if things[0].Box? then 1 + Containers(things[0].inner) else 0) + Containers(things[1..])
  }

  function QueueSize(queue: seq<seq<Thing>>): nat {
    if queue == [] then 0 else 1 + Containers(queue[0]) + QueueSize(queue[1..])
  }

  lemma {:induction false} QueueSizeConcat(a: seq<seq<Thing>>, b: seq<seq<Thing>>)
    ensures QueueSize(a + b) == QueueSize(a) + QueueSize(b)
  {
    if a == [] {
      assert a + b == b;
    } else {
      assert (a + b)[1..] == a[1..] + b;
      QueueSizeConcat(a[1..], b);
    }
  }

  lemma {:induction false} BoxesSize(things: seq<Thing>)
    ensures QueueSize(Boxes(things)) == Containers(things)
  {
    if things != [] {
      BoxesSize(things[1..]);
      if things[0].Box? {
        assert Boxes(things)[1..] == Boxes(things[1..]);
      } else {
        assert Boxes(things) == Boxes(things[1..]);
      }
    }
  }

  /** The identities in the order the queue of containers meets them. */
  function BreadthFirst(queue: seq<seq<Thing>>): seq<nat>
    decreases QueueSize(queue)
  {
    if queue == [] then []
    else
      QueueSizeConcat(queue[1..], Boxes(queue[0]));
      BoxesSize(queue[0]);
      Leaves(queue[0]) + BreadthFirst(queue[1..] + Boxes(queue[0]))
  }

  function IdsOfAll(queue: seq<seq<Thing>>): seq<nat> {
    if queue == [] then [] else Ids(queue[0]) + IdsOfAll(queue[1..])
  }

  lemma {:induction false} IdsOfAllConcat(a: seq<seq<Thing>>, b: seq<seq<Thing>>)
    ensures IdsOfAll(a + b) == IdsOfAll(a) + IdsOfAll(b)
  {
    if a == [] {
      assert a + b == b;
    } else {
      assert (a + b)[1..] == a[1..] + b;
      IdsOfAllConcat(a[1..], b);
    }
  }

  lemma {:induction false} LeavesAndBoxes(things: seq<Thing>)
    ensures multiset(Ids(things)) == multiset(Leaves(things)) + multiset(IdsOfAll(Boxes(things)))
  {
    if things != [] {
      LeavesAndBoxes(things[1..]);
      if things[0].Box? {
        assert Boxes(things)[1..] == Boxes(things[1..]);
      } else {
        assert Boxes(things) == Boxes(things[1..]);
      }
    }
  }

  /** The queue meets every item of the forest exactly as often as the recursion does. */
  lemma {:induction false} BreadthMeetsAll(queue: seq<seq<Thing>>)
    ensures multiset(BreadthFirst(queue)) == multiset(IdsOfAll(queue))
    decreases QueueSize(queue)
  {
    if queue != [] {
      QueueSizeConcat(queue[1..], Boxes(queue[0]));
      BoxesSize(queue[0]);
      BreadthMeetsAll(queue[1..] + Boxes(queue[0]));
      IdsOfAllConcat(queue[1..], Boxes(queue[0]));
      LeavesAndBoxes(queue[0]);
    }
  }

  lemma {:induction false} TotalWithout(b: seq<nat>, i: nat, stacks: Stacks)
    requires i < |b|
    ensures Total(b, stacks) == WorthOf(b[i], stacks) + Total(b[..i] + b[i + 1..], stacks)
    ensures multiset(b[..i] + b[i + 1..]) == multiset(b) - multiset{b[i]}
  {
    assert b == b[..i] + b[i..] && b[i..] == [b[i]] + b[i + 1..];
    TotalConcat(b[..i], b[i..], stacks);
    TotalConcat(b[..i], b[i + 1..], stacks);
    assert multiset(b) == multiset(b[..i]) + multiset{b[i]} + multiset(b[i + 1..]);
  }

  lemma {:induction false} TotalOfPermutation(a: seq<nat>, b: seq<nat>, stacks: Stacks)
    requires multiset(a) == multiset(b)
    ensures Total(a, stacks) == Total(b, stacks)
    decreases |a|
  {
    if a == [] {
      assert |multiset(b)| == 0;
    } else {
      assert a[0] in multiset(a);
      var i :| 0 <= i < |b| && b[i] == a[0];
      TotalWithout(b, i, stacks);
      TotalWithout(a, 0, stacks);
      TotalOfPermutation(a[..0] + a[1..], b[..i] + b[i + 1..], stacks);
    }
  }

  /** The queue that starts with one list meets its items as often as the recursion does. */
  lemma MeetsEveryItem(things: seq<Thing>)
    ensures multiset(BreadthFirst([things])) == multiset(Ids(things))
  {
    BreadthMeetsAll([things]);
    assert [things][1..] == [];
    assert IdsOfAll([things]) == Ids(things) + [] == Ids(things);
  }

  /** Both ways of counting a player's money agree on every forest of nested containers. */
  lemma CountsAgree(things: seq<Thing>, stacks: Stacks)
    ensures Total(BreadthFirst([things]), stacks) == GetMoney(things, stacks)
  {
    MeetsEveryItem(things);
    TotalOfPermutation(BreadthFirst([things]), Ids(things), stacks);
    GetMoneyIsTotal(things, stacks);
  }

  // ---------------------------------------------------------------- the money map

  /** An entry of `moneyMap`: the key is the worth of the whole stack. */
  datatype Entry = Entry(worth: nat, id: nat)

  /** `multimap::emplace`: behind every entry with a key that is not larger. */
  function Emplace(m: seq<Entry>, e: Entry): seq<Entry> {
    if m == [] || e.worth < m[0].worth then [e] + m else [m[0]] + Emplace(m[1..], e)
  }

  /** The money map after one more item; only items worth something are listed. */
  function Listed(m: seq<Entry>, id: nat, stacks: Stacks): seq<Entry> {
    if WorthOf(id, stacks) != 0 then Emplace(m, Entry(WorthOf(id, stacks), id)) else m
  }

  function Catalog(ids: seq<nat>, stacks: Stacks, m: seq<Entry>): seq<Entry> {
    if ids == [] then m else Catalog(ids[1..], stacks, Listed(m, ids[0], stacks))
  }

  ghost predicate Ascending(m: seq<Entry>) {
    forall i, j :: 0 <= i < j < |m| ==> m[i].worth <= m[j].worth
  }

  lemma {:induction false} EmplaceAt(m: seq<Entry>, e: Entry) returns (k: nat)
    ensures k <= |m| && Emplace(m, e) == m[..k] + [e] + m[k..]
    ensures forall i :: 0 <= i < k ==> m[i].worth <= e.worth
    ensures k < |m| ==> e.worth < m[k].worth
  {
    if m == [] || e.worth < m[0].worth {
      k := 0;
    } else {
      k := EmplaceAt(m[1..], e);
      k := k + 1;
      assert m[..k] == [m[0]] + m[1..][..k - 1];
    }
  }

  lemma EmplaceKeepsOrder(m: seq<Entry>, e: Entry)
    requires Ascending(m)
    ensures Ascending(Emplace(m, e))
  {
    var k := EmplaceAt(m, e);
  }

  function EntryIds(m: seq<Entry>): (ids: seq<nat>)
    ensures |ids| == |m|
    ensures forall i :: 0 <= i < |m| ==> ids[i] == m[i].id
  {
    if m == [] then [] else [m[0].id] + EntryIds(m[1..])
  }

  /** The coin stacks among the identities. */
  function CoinIds(ids: seq<nat>, stacks: Stacks): seq<nat> {
    if ids == [] then []
    else (if WorthOf(ids[0], stacks) != 0 then [ids[0]] else []) + CoinIds(ids[1..], stacks)
  }

  ghost predicate Distinct(ids: seq<nat>) {
    forall id :: multiset(ids)[id] <= 1
  }

  ghost predicate Keyed(m: seq<Entry>, stacks: Stacks) {
    forall i :: 0 <= i < |m| ==> m[i].worth == WorthOf(m[i].id, stacks) != 0
  }

  lemma {:induction false} EmplaceIds(m: seq<Entry>, e: Entry)
    ensures multiset(EntryIds(Emplace(m, e))) == multiset(EntryIds(m)) + multiset{e.id}
  {
    if m == [] || e.worth < m[0].worth {
      assert ([e] + m)[1..] == m;
    } else {
      EmplaceIds(m[1..], e);
      var r := Emplace(m[1..], e);
      assert ([m[0]] + r)[1..] == r;
    }
  }

  lemma {:induction false} EmplaceKeyed(m: seq<Entry>, e: Entry, stacks: Stacks)
    requires Keyed(m, stacks) && Keyed([e], stacks)
    ensures Keyed(Emplace(m, e), stacks)
  {
    assert [e][0] == e;
    if m == [] || e.worth < m[0].worth {
    } else {
      EmplaceKeyed(m[1..], e, stacks);
    }
  }

  lemma {:induction false} CatalogOrdered(ids: seq<nat>, stacks: Stacks, m: seq<Entry>)
    requires Ascending(m) && Keyed(m, stacks)
    ensures Ascending(Catalog(ids, stacks, m)) && Keyed(Catalog(ids, stacks, m), stacks)
    decreases |ids|
  {
    if ids != [] {
      var e := Entry(WorthOf(ids[0], stacks), ids[0]);
      if e.worth != 0 {
        EmplaceKeepsOrder(m, e);
        EmplaceKeyed(m, e, stacks);
        CatalogOrdered(ids[1..], stacks, Emplace(m, e));
      } else {
        CatalogOrdered(ids[1..], stacks, m);
      }
    }
  }

  lemma {:induction false} CatalogIds(ids: seq<nat>, stacks: Stacks, m: seq<Entry>)
    ensures multiset(EntryIds(Catalog(ids, stacks, m)))
         == multiset(EntryIds(m)) + multiset(CoinIds(ids, stacks))
    decreases |ids|
  {
    if ids != [] {
      var e := Entry(WorthOf(ids[0], stacks), ids[0]);
      if e.worth != 0 {
        EmplaceIds(m, e);
        CatalogIds(ids[1..], stacks, Emplace(m, e));
      } else {
        CatalogIds(ids[1..], stacks, m);
      }
    }
  }

  lemma {:induction false} CoinIdsCount(ids: seq<nat>, stacks: Stacks, id: nat)
    ensures multiset(CoinIds(ids, stacks))[id] == if WorthOf(id, stacks) != 0 then multiset(ids)[id] else 0
  {
    if ids != [] {
      CoinIdsCount(ids[1..], stacks, id);
      assert ids == [ids[0]] + ids[1..];
    }
  }

  // ---------------------------------------------------------------- payment

  /** The comparison of a price with coins and balance, whose sum is kept in 64 bits. */
  predicate Suffices(coins: nat, balance: nat, price: nat): (r: bool)
    ensures r ==> price <= coins + balance
    ensures coins + balance < U64 ==> (r <==> price <= coins + balance)
    ensures U64 <= coins + balance < 2 * U64 ==> (r <==> price <= coins + balance - U64)
  {
    price <= (coins + balance) % U64
  }

  function CeilDiv(a: nat, b: nat): nat
    requires b > 0
  {
    (a + b - 1) / b
  }

  /** `internalRemoveItem(item, count)`: a stack that loses all its coins is gone. */
  function Take(stacks: Stacks, id: nat, count: nat): Stacks
    requires id in stacks && count <= stacks[id].count
  {
    if count == stacks[id].count then stacks - {id}
    else stacks[id := stacks[id].(count := stacks[id].count - count)]
  }

  datatype Payment = Payment(stacks: Stacks, change: nat, owed: nat)

  /** The stacks that `m` lists exist, and `m` has their worth. */
  ghost predicate Priced(m: seq<Entry>, stacks: Stacks) {
    Keyed(m, stacks) && forall i, j :: 0 <= i < j < |m| ==> m[i].id != m[j].id
  }

  lemma DistinctAt(ids: seq<nat>, i: nat, j: nat)
    requires Distinct(ids) && i < j < |ids|
    ensures ids[i] != ids[j]
  {
    var front, back := ids[..j], ids[j..];
    assert ids == front + back;
    assert multiset(ids) == multiset(front) + multiset(back);
    assert front[i] == ids[i] && back[0] == ids[j];
    assert front[i] in multiset(front) && back[0] in multiset(back);
    assert multiset(ids)[ids[i]] <= 1;
  }

  lemma CatalogCount(ids: seq<nat>, stacks: Stacks, id: nat)
    ensures var es := EntryIds(Catalog(ids, stacks, []));
            multiset(es)[id] == (if WorthOf(id, stacks) != 0 then multiset(ids)[id] else 0)
            && (id in es <==> id in ids && WorthOf(id, stacks) != 0)
  {
    CatalogIds(ids, stacks, []);
    CoinIdsCount(ids, stacks, id);
    assert id in EntryIds(Catalog(ids, stacks, [])) <==> id in multiset(EntryIds(Catalog(ids, stacks, [])));
    assert id in ids <==> id in multiset(ids);
  }

  /** The money map of a forest in which no item occurs twice. */
  lemma CatalogPriced(ids: seq<nat>, stacks: Stacks)
    requires Distinct(ids)
    ensures var m := Catalog(ids, stacks, []);
            && Ascending(m) && Priced(m, stacks)
            && (forall id :: id in EntryIds(m) <==> id in ids && WorthOf(id, stacks) != 0)
  {
    CatalogOrdered(ids, stacks, []);
    var m := Catalog(ids, stacks, []);
    forall id
      ensures multiset(EntryIds(m))[id] <= 1
      ensures id in EntryIds(m) <==> id in ids && WorthOf(id, stacks) != 0
    {
      CatalogCount(ids, stacks, id);
    }
    forall i, j | 0 <= i < j < |m|
      ensures m[i].id != m[j].id
    {
      DistinctAt(EntryIds(m), i, j);
    }
  }

  /** The payment loop: what it leaves of the stacks, the change it gives, and what it still owes. */
  function Pay(m: seq<Entry>, stacks: Stacks, money: nat): Payment
    requires Priced(m, stacks) && money > 0
  {
    if m == [] then Payment(stacks, 0, money)
    else
      var e := m[0];
      if e.worth < money then
        Pay(m[1..], stacks - {e.id}, money - e.worth)
      else if e.worth > money then
        var unit := e.worth / stacks[e.id].count;
        var removeCount := CeilDiv(money, unit);
        BreakCount(stacks[e.id], money);
        Payment(Take(stacks, e.id, removeCount), unit * removeCount - money, 0)
      else Payment(stacks - {e.id}, 0, 0)
  }

  /** Breaking a stack that is worth more than the price: enough coins, and none to spare. */
  lemma BreakCount(s: Stack, money: nat)
    requires 0 < money < s.Worth()
    ensures s.count > 0 && s.Worth() / s.count == s.kind.Unit() > 0
    ensures 0 < CeilDiv(money, s.kind.Unit()) <= s.count
    ensures 0 <= s.kind.Unit() * CeilDiv(money, s.kind.Unit()) - money < s.kind.Unit()
  {
    assert s.kind != NotCoin;
    assert s.count == 0 ==> s.Worth() == 0;
    DivExact(s.kind.Unit(), s.count);
    match s.kind {
      case Gold =>
        CeilBounds(money, 1, s.count);
      case Platinum =>
        CeilBounds(money, 100, s.count);
      case Crystal =>
        CeilBounds(money, 10000, s.count);
    }
  }

  lemma CeilBounds(money: nat, unit: nat, count: nat)
    requires unit in {1, 100, 10000} && 0 < money < unit * count
    ensures 0 < CeilDiv(money, unit) <= count
    ensures 0 <= unit * CeilDiv(money, unit) - money < unit
  {
    if unit == 1 {
    } else if unit == 100 {
    } else {
    }
  }

  /** The coins that exist plus what is owed, less the change, pay the price exactly. */
  lemma {:induction false} PayConserves(m: seq<Entry>, stacks: Stacks, money: nat, ids: seq<nat>)
    requires Priced(m, stacks) && money > 0 && Distinct(ids)
    requires forall i :: 0 <= i < |m| ==> m[i].id in ids
    ensures var p := Pay(m, stacks, money);
            Total(ids, stacks) + p.owed == Total(ids, p.stacks) + money + p.change
  {
    if m != [] {
      var e := m[0];
      TotalUpdate(ids, stacks, stacks - {e.id}, e.id);
      if e.worth < money {
        PayConserves(m[1..], stacks - {e.id}, money - e.worth, ids);
      } else if e.worth > money {
        var s := stacks[e.id];
        BreakCount(s, money);
        var n := CeilDiv(money, s.kind.Unit());
        TotalUpdate(ids, stacks, Take(stacks, e.id, n), e.id);
        assert s.kind.Unit() * (s.count - n) == s.Worth() - s.kind.Unit() * n;
      }
    }
  }

  /** Changing one stack changes the total by the change in that stack. */
  lemma {:induction false} TotalUpdate(ids: seq<nat>, stacks: Stacks, stacks': Stacks, id: nat)
    requires Distinct(ids)
    requires forall x :: x in ids && x != id ==> WorthOf(x, stacks) == WorthOf(x, stacks')
    ensures id in ids ==> Total(ids, stacks') + WorthOf(id, stacks) == Total(ids, stacks) + WorthOf(id, stacks')
    ensures id !in ids ==> Total(ids, stacks') == Total(ids, stacks)
  {
    if ids != [] {
      assert ids == [ids[0]] + ids[1..];
      assert forall x :: multiset(ids[1..])[x] <= multiset(ids)[x];
      assert id in ids <==> id in multiset(ids);
      assert id in ids[1..] <==> id in multiset(ids[1..]);
      TotalUpdate(ids[1..], stacks, stacks', id);
    }
  }

  function Sum(m: seq<Entry>): nat {
    if m == [] then 0 else m[0].worth + Sum(m[1..])
  }

  /** Whether coins alone suffice decides whether anything stays owed, and how much. */
  lemma {:induction false} PayOwes(m: seq<Entry>, stacks: Stacks, money: nat)
    requires Priced(m, stacks) && money > 0
    ensures Pay(m, stacks, money).owed == if Sum(m) < money then money - Sum(m) else 0
    ensures Pay(m, stacks, money).owed > 0 ==> Pay(m, stacks, money).change == 0
  {
    if m != [] && m[0].worth < money {
      PayOwes(m[1..], stacks - {m[0].id}, money - m[0].worth);
    } else if m != [] && m[0].worth > money {
      BreakCount(stacks[m[0].id], money);
    }
  }

  /** Entries before `k` are spent whole, entry `k` may be broken, later ones and all other
      items stay as they are; the change is less than one coin of the broken stack. */
  ghost predicate Shaped(m: seq<Entry>, stacks: Stacks, p: Payment, k: nat)
    requires forall i :: 0 <= i < |m| ==> m[i].id in stacks
  {
    && k <= |m|
    && (forall i :: 0 <= i < k ==> m[i].id !in p.stacks)
    && (forall id :: id in p.stacks ==> id in stacks)
    && (forall id :: id in stacks && (forall i :: 0 <= i <= k && i < |m| ==> m[i].id != id) ==>
          id in p.stacks && p.stacks[id] == stacks[id])
    && (p.change > 0 ==> k < |m| && p.change < stacks[m[k].id].kind.Unit())
    && (k == |m| ==> p.owed > 0)
    && (k < |m| && m[k].id in p.stacks ==>
          p.stacks[m[k].id].kind == stacks[m[k].id].kind
          && 0 < p.stacks[m[k].id].count < stacks[m[k].id].count)
  }

  lemma {:induction false} PayShape(m: seq<Entry>, stacks: Stacks, money: nat) returns (k: nat)
    requires Priced(m, stacks) && money > 0
    ensures Shaped(m, stacks, Pay(m, stacks, money), k)
  {
    k := 0;
    if m != [] {
      if m[0].worth < money {
        PricedRest(m, stacks);
        k := PayShape(m[1..], stacks - {m[0].id}, money - m[0].worth);
        ShapeStep(m, stacks, Pay(m, stacks, money), k);
        k := k + 1;
      } else if m[0].worth > money {
        BreakCount(stacks[m[0].id], money);
      }
    }
  }

  /** One more entry, spent whole, in front. */
  lemma ShapeStep(m: seq<Entry>, stacks: Stacks, p: Payment, k: nat)
    requires Priced(m, stacks) && m != [] && Priced(m[1..], stacks - {m[0].id})
    requires Shaped(m[1..], stacks - {m[0].id}, p, k)
    ensures Shaped(m, stacks, p, k + 1)
  {
    var rest := m[1..];
    assert forall i :: 0 < i < |m| ==> m[i] == rest[i - 1];
    forall id | id in stacks && (forall i :: 0 <= i <= k + 1 && i < |m| ==> m[i].id != id)
      ensures id in p.stacks && p.stacks[id] == stacks[id]
    {
      assert id != m[0].id;
      assert forall i :: 0 <= i <= k && i < |rest| ==> rest[i] == m[i + 1];
    }
  }

  ghost predicate Touched(id: nat, stacks: Stacks, stacks': Stacks)
    requires id in stacks
  {
    id !in stacks' || stacks'[id] != stacks[id]
  }

  /** Which stacks a payment touches: those listed up to some entry `k`, of which at most the
      last is left smaller and the others are gone. */
  lemma TouchedUpTo(m: seq<Entry>, stacks: Stacks, money: nat) returns (k: nat)
    requires Priced(m, stacks) && money > 0
    ensures var p := Pay(m, stacks, money);
            && (forall id :: id in stacks && Touched(id, stacks, p.stacks) ==>
                  exists i :: 0 <= i <= k && i < |m| && m[i].id == id)
            && (forall i :: 0 <= i < |m| ==> (Touched(m[i].id, stacks, p.stacks) <==> i <= k))
            && (forall i :: 0 <= i < k && i < |m| ==> m[i].id !in p.stacks)
            && (p.change > 0 ==> k < |m| && p.change < stacks[m[k].id].kind.Unit())
  {
    k := PayShape(m, stacks, money);
    var p := Pay(m, stacks, money);
    forall i | 0 <= i < |m|
      ensures Touched(m[i].id, stacks, p.stacks) <==> i <= k
    {
      if i == k && m[k].id in p.stacks {
        assert p.stacks[m[k].id].count < stacks[m[k].id].count;
      }
    }
  }

  /** No touched stack is worth more than an untouched one. */
  lemma CheapestFirst(m: seq<Entry>, stacks: Stacks, money: nat, i: nat, j: nat)
    requires Priced(m, stacks) && Ascending(m) && money > 0 && i < |m| && j < |m|
    requires Touched(m[i].id, stacks, Pay(m, stacks, money).stacks)
    requires !Touched(m[j].id, stacks, Pay(m, stacks, money).stacks)
    ensures m[i].worth <= m[j].worth
  {
    var k := TouchedUpTo(m, stacks, money);
  }

  /** At most one stack is broken and left smaller. */
  lemma OneBroken(m: seq<Entry>, stacks: Stacks, money: nat, x: nat, y: nat)
    requires Priced(m, stacks) && money > 0 && x in stacks && y in stacks
    requires var left := Pay(m, stacks, money).stacks;
             x in left && y in left && Touched(x, stacks, left) && Touched(y, stacks, left)
    ensures x == y
  {
    var k := TouchedUpTo(m, stacks, money);
  }

  // ---------------------------------------------------------------- the money map's total

  lemma {:induction false} EmplaceSum(m: seq<Entry>, e: Entry)
    ensures Sum(Emplace(m, e)) == Sum(m) + e.worth
  {
    if m == [] || e.worth < m[0].worth {
      assert ([e] + m)[1..] == m;
    } else {
      EmplaceSum(m[1..], e);
      assert ([m[0]] + Emplace(m[1..], e))[1..] == Emplace(m[1..], e);
    }
  }

  lemma {:induction false} CatalogSum(ids: seq<nat>, stacks: Stacks, m: seq<Entry>)
    ensures Sum(Catalog(ids, stacks, m)) == Sum(m) + Total(ids, stacks)
    decreases |ids|
  {
    if ids != [] {
      var e := Entry(WorthOf(ids[0], stacks), ids[0]);
      EmplaceSum(m, e);
      CatalogSum(ids[1..], stacks, if e.worth != 0 then Emplace(m, e) else m);
    }
  }

  // ---------------------------------------------------------------- coins for an amount

  datatype CoinCounts = CoinCounts(crystal: nat, platinum: nat, gold: nat)
  {
    function Worth(): nat {
      10000 * crystal + 100 * platinum + gold
    }
  }

  /** How many coins `addMoney` creates, with the widths of its variables: the crystal count and
      its product are 32 bits wide, the platinum count 16, the gold count 32 again. */
  function CoinsFor(money: nat): CoinCounts {
    var crystal := money / 10000 % U32;
    var money1 := money - crystal * 10000 % U32;
    var platinum := money1 / 100 % U16;
    var money2 := money1 - platinum * 100;
    CoinCounts(crystal, platinum, money2 % U32)
  }

  lemma WrapSmall(x: nat)
    ensures x < U32 ==> x % U32 == x
    ensures x < U16 ==> x % U16 == x
    ensures x == x / U32 * U32 + x % U32
  {
  }

  lemma WrapPlus(k: nat, x: nat)
    requires x < U32
    ensures (k * U32 + x) % U32 == x
  {
  }

  /** The amount is met exactly when the crystal count fits its variable and what the wrapped product
      leaves, in hundreds truncated to 16 bits, is no more than the last four digits ask for. */
  lemma CoinsForExact(money: nat)
    requires money < U64
    ensures var high, low := money / 10000, money % 10000;
            CoinsFor(money).Worth() == money
            <==> high < U32 && (high * 10000 / U32 * U32 + low) / 100 % U16 <= low / 100
  {
    var c := CoinsFor(money);
    var high, r := money / 10000, money % 10000;
    var j, q := high / U32, c.crystal * 10000 / U32;
    WrapSmall(high);
    WrapSmall(c.crystal * 10000);
    var money1 := money - c.crystal * 10000 % U32;
    assert money1 == (10000 * j + q) * U32 + r;
    assert high < U32 ==> c.crystal == high && j == 0;
    GoldLeft(money1, 10000 * j + q, r, c.platinum);
  }

  /** The gold count is what the platinum leaves of the last four digits, or wraps. */
  lemma GoldLeft(money1: nat, wraps: nat, r: nat, platinum: nat)
    requires money1 == wraps * U32 + r && r < 10000
    requires platinum < U16 && platinum * 100 <= money1
    ensures (money1 - platinum * 100) % U32
         == if platinum * 100 <= r then r - platinum * 100 else U32 + r - platinum * 100
  {
    if platinum * 100 <= r {
      WrapPlus(wraps, r - platinum * 100);
    } else {
      WrapPlus(wraps - 1, U32 + r - platinum * 100);
    }
  }

  /** The unit of coins of which `count` are made. */
  function UnitIf(kind: Kind, count: nat): nat {
    if count == 0 then 0 else kind.Unit()
  }

  /** No coin made for an amount is worth more than the amount. */
  lemma CoinsForUnits(money: nat)
    requires money > 0
    ensures UnitIf(Crystal, CoinsFor(money).crystal) <= money
    ensures UnitIf(Platinum, CoinsFor(money).platinum) <= money
  {
  }

  /** Up to this amount nothing is truncated, and the coins are the canonical ones. */
  lemma CoinsForSmall(money: nat)
    requires money <= 4_294_969_999
    ensures CoinsFor(money) == CoinCounts(money / 10000, money % 10000 / 100, money % 100)
    ensures CoinsFor(money).Worth() == money
  {
    var high, low := money / 10000, money % 10000;
    CoinsFrom(high, low);
    LastTwo(money, high, low);
  }

  lemma LastTwo(money: nat, high: nat, low: nat)
    requires high == money / 10000 && low == money % 10000
    ensures money == 10000 * high + low && low % 100 == money % 100
  {
  }

  lemma CoinsFrom(high: nat, low: nat)
    requires high <= 429_496 && low < 10000
    ensures CoinsFor(10000 * high + low) == CoinCounts(high, low / 100, low % 100)
    ensures CoinCounts(high, low / 100, low % 100).Worth() == 10000 * high + low
  {
    var money := 10000 * high + low;
    assert money / 10000 == high;
    WrapSmall(high);
    WrapSmall(high * 10000);
    LastDigits(low);
    assert money - high * 10000 == low;
  }

  lemma LastDigits(low: nat)
    requires low < 10000
    ensures low / 100 % U16 == low / 100 && (low - low / 100 * 100) % U32 == low % 100
  {
    WrapSmall(low / 100);
    WrapSmall(low % 100);
  }

  /** From one gold piece more on, for ten thousand amounts, 4294967296 gold pieces too many are
      created. */
  lemma CoinsForTooMany(money: nat)
    requires 4_294_970_000 <= money < 4_294_980_000
    ensures CoinsFor(money).Worth() == money + U32
  {
    var r := money - 4_294_970_000;
    CrystalWraps(money);
    PlatinumLeft(r);
    GoldLeft(U32 + r, 1, r, CoinsFor(money).platinum);
  }

  lemma CrystalWraps(money: nat)
    requires 4_294_970_000 <= money < 4_294_980_000
    ensures CoinsFor(money).crystal == 429_497
    ensures money - CoinsFor(money).crystal * 10000 % U32 == money - 2704
  {
    assert money / 10000 == 429_497;
    WrapSmall(429_497);
    WrapPlus(1, 2704);
  }

  lemma PlatinumLeft(r: nat)
    requires r < 10000
    ensures 23_592 <= (U32 + r) / 100 % U16 <= 23_693
  {
    var platinum := (U32 + r) / 100;
    assert 42_949_672 <= platinum <= 42_949_773;
    assert platinum == 655 * U16 + (platinum - 655 * U16);
  }

  // ---------------------------------------------------------------- the cylinder

  function TileWorth(tile: seq<Stack>): nat {
    if tile == [] then 0 else TileWorth(tile[..|tile| - 1]) + tile[|tile| - 1].Worth()
  }

  /** Appending the identity of a new item. */
  lemma {:induction false} IdsAppend(things: seq<Thing>, id: nat)
    ensures Ids(things + [Leaf(id)]) == Ids(things) + [id]
  {
    if things == [] {
      assert things + [Leaf(id)] == [Leaf(id)];
      assert [Leaf(id)][1..] == [];
    } else {
      assert (things + [Leaf(id)])[1..] == things[1..] + [Leaf(id)];
      IdsAppend(things[1..], id);
    }
  }

  lemma {:induction false} CatalogConcat(a: seq<nat>, b: seq<nat>, stacks: Stacks, m: seq<Entry>)
    ensures Catalog(a + b, stacks, m) == Catalog(b, stacks, Catalog(a, stacks, m))
    decreases |a|
  {
    if a == [] {
      assert a + b == b;
    } else {
      assert (a + b)[1..] == a[1..] + b;
      CatalogConcat(a[1..], b, stacks, Listed(m, a[0], stacks));
    }
  }

  /** One round of the queue. */
  lemma QueueStep(queue: seq<seq<Thing>>, stacks: Stacks, m: seq<Entry>)
    requires queue != []
    ensures var next := queue[1..] + Boxes(queue[0]);
            && QueueSize(next) < QueueSize(queue)
            && Catalog(BreadthFirst(queue), stacks, m)
               == Catalog(BreadthFirst(next), stacks, Catalog(Leaves(queue[0]), stacks, m))
            && Total(BreadthFirst(queue), stacks) == Total(Leaves(queue[0]), stacks) + Total(BreadthFirst(next), stacks)
  {
    var next := queue[1..] + Boxes(queue[0]);
    QueueSizeConcat(queue[1..], Boxes(queue[0]));
    BoxesSize(queue[0]);
    CatalogConcat(Leaves(queue[0]), BreadthFirst(next), stacks, m);
    TotalConcat(Leaves(queue[0]), BreadthFirst(next), stacks);
  }

  /** What the collection has and what its queue will still bring make the whole money map. */
  ghost predicate Collecting(things: seq<Thing>, stacks: Stacks, queue: seq<seq<Thing>>, m: seq<Entry>, count: nat) {
    && Catalog(BreadthFirst(queue), stacks, m) == Catalog(BreadthFirst([things]), stacks, [])
    && count + Total(BreadthFirst(queue), stacks) == Total(BreadthFirst([things]), stacks)
  }

  lemma CollectingStarts(things: seq<Thing>, stacks: Stacks)
    ensures Collecting(things, stacks, [things][1..] + Boxes(things),
                       Catalog(Leaves(things), stacks, []), Total(Leaves(things), stacks))
  {
    QueueStep([things], stacks, []);
  }

  lemma CollectingStep(things: seq<Thing>, stacks: Stacks, queue: seq<seq<Thing>>, m: seq<Entry>, count: nat)
    requires Collecting(things, stacks, queue, m, count) && queue != []
    ensures var next := queue[1..] + Boxes(queue[0]);
            && QueueSize(next) < QueueSize(queue)
            && Collecting(things, stacks, next, Catalog(Leaves(queue[0]), stacks, m),
                          count + Total(Leaves(queue[0]), stacks))
  {
    QueueStep(queue, stacks, m);
  }

  /** A new item in a cylinder raises its money by its worth. */
  lemma AppendWorth(things: seq<Thing>, stacks: Stacks, id: nat, s: Stack)
    requires Distinct(Ids(things)) && id !in Ids(things)
    ensures Distinct(Ids(things + [Leaf(id)]))
    ensures GetMoney(things + [Leaf(id)], stacks[id := s]) == GetMoney(things, stacks) + s.Worth()
  {
    var stacks' := stacks[id := s];
    IdsAppend(things, id);
    GetMoneyIsTotal(things, stacks);
    GetMoneyIsTotal(things + [Leaf(id)], stacks');
    TotalConcat(Ids(things), [id], stacks');
    TotalUpdate(Ids(things), stacks, stacks', id);
    assert Total([id], stacks') == WorthOf(id, stacks') + Total([id][1..], stacks');
    assert id !in multiset(Ids(things));
  }

  /** What adding coins may change: nothing that was there, and every new stack has a unit of
      at most `unit`. */
  ghost predicate OnlyAdds(things: seq<Thing>, stacks: Stacks, tile: seq<Stack>, firstNew: nat,
                           things': seq<Thing>, stacks': Stacks, tile': seq<Stack>, unit: nat) {
    && things <= things' && tile <= tile'
    && (forall id :: id < firstNew ==> (id in stacks <==> id in stacks'))
    && (forall id :: id in stacks && id < firstNew ==> stacks'[id] == stacks[id])
    && (forall id :: id in stacks' && id >= firstNew ==> stacks'[id].kind.Unit() <= unit)
    && (forall i :: |tile| <= i < |tile'| ==> tile'[i].kind.Unit() <= unit)
  }

  /** A new stack, put into the cylinder. */
  lemma InsideFacts(things: seq<Thing>, stacks: Stacks, tile: seq<Stack>, id: nat, item: Stack)
    requires Distinct(Ids(things)) && (forall x :: x in Ids(things) ==> x < id)
    requires forall x :: x in stacks ==> x < id
    ensures Distinct(Ids(things + [Leaf(id)])) && forall x :: x in Ids(things + [Leaf(id)]) ==> x <= id
    ensures GetMoney(things + [Leaf(id)], stacks[id := item]) == GetMoney(things, stacks) + item.Worth()
    ensures OnlyAdds(things, stacks, tile, id, things + [Leaf(id)], stacks[id := item], tile, item.kind.Unit())
  {
    AppendWorth(things, stacks, id, item);
    IdsAppend(things, id);
  }

  lemma OnlyAddsTrans(t0: seq<Thing>, s0: Stacks, f0: seq<Stack>, n0: nat,
                      t1: seq<Thing>, s1: Stacks, f1: seq<Stack>, n1: nat,
                      t2: seq<Thing>, s2: Stacks, f2: seq<Stack>, unit1: nat, unit2: nat, unit: nat)
    requires n0 <= n1 && unit1 <= unit && unit2 <= unit
    requires OnlyAdds(t0, s0, f0, n0, t1, s1, f1, unit1) && OnlyAdds(t1, s1, f1, n1, t2, s2, f2, unit2)
    requires forall id :: id in s1 ==> id < n1
    ensures OnlyAdds(t0, s0, f0, n0, t2, s2, f2, unit)
  {
  }

  /** Taking coins from a stack lowers the money by what was taken. */
  lemma TakeWorth(things: seq<Thing>, stacks: Stacks, id: nat, n: nat)
    requires Distinct(Ids(things)) && id in Ids(things) && id in stacks && n <= stacks[id].count
    ensures GetMoney(things, Take(stacks, id, n)) + stacks[id].kind.Unit() * n == GetMoney(things, stacks)
  {
    GetMoneyIsTotal(things, stacks);
    GetMoneyIsTotal(things, Take(stacks, id, n));
    TakeOne(stacks, id, n);
    TotalUpdate(Ids(things), stacks, Take(stacks, id, n), id);
  }

  lemma TakeOne(stacks: Stacks, id: nat, n: nat)
    requires id in stacks && n <= stacks[id].count
    ensures WorthOf(id, Take(stacks, id, n)) + stacks[id].kind.Unit() * n == WorthOf(id, stacks)
    ensures forall x :: x != id ==> WorthOf(x, Take(stacks, id, n)) == WorthOf(x, stacks)
  {
    var s := stacks[id];
    assert s.kind.Unit() * s.count == s.kind.Unit() * (s.count - n) + s.kind.Unit() * n;
  }

  /** The stacks after a payment from money map `m`: what `Pay` left of the old ones, and new
      coins, each worth no more than the change. */
  ghost predicate PaidBy(m: seq<Entry>, stacks: Stacks, tile: seq<Stack>, firstNew: nat, money: nat,
                         stacks': Stacks, tile': seq<Stack>)
  {
    && Priced(m, stacks) && money > 0
    && var p := Pay(m, stacks, money);
    && (forall id :: id < firstNew ==> (id in stacks' <==> id in p.stacks))
    && (forall id :: id < firstNew && id in p.stacks ==> stacks'[id] == p.stacks[id])
    && (forall id :: id in stacks' && id >= firstNew ==> stacks'[id].kind.Unit() <= p.change)
    && tile <= tile' && (forall i :: |tile| <= i < |tile'| ==> tile'[i].kind.Unit() <= p.change)
  }

  /** Change is made of smaller coins than those it was changed from: below the unit of the last
      and dearest stack that the payment touched. */
  lemma ChangeIsSmaller(m: seq<Entry>, stacks: Stacks, tile: seq<Stack>, firstNew: nat, money: nat,
                        stacks': Stacks, tile': seq<Stack>) returns (k: nat)
    requires PaidBy(m, stacks, tile, firstNew, money, stacks', tile') && Ascending(m)
    requires Pay(m, stacks, money).change > 0
    ensures k < |m| && Touched(m[k].id, stacks, Pay(m, stacks, money).stacks)
    ensures forall i :: 0 <= i < |m| && Touched(m[i].id, stacks, Pay(m, stacks, money).stacks) ==>
              m[i].worth <= m[k].worth
    ensures forall id :: id in stacks' && id >= firstNew ==>
              stacks'[id].kind.Unit() < stacks[m[k].id].kind.Unit()
    ensures forall i :: |tile| <= i < |tile'| ==> tile'[i].kind.Unit() < stacks[m[k].id].kind.Unit()
  {
    k := TouchedUpTo(m, stacks, money);
  }

  /** The payment together with the bank account, which pays what the coins leave owed. */
  ghost predicate Settled(m: seq<Entry>, stacks: Stacks, tile: seq<Stack>, firstNew: nat, bank: nat, money: nat,
                          stacks': Stacks, tile': seq<Stack>, bank': nat)
  {
    PaidBy(m, stacks, tile, firstNew, money, stacks', tile') && bank' == bank - Pay(m, stacks, money).owed
  }

  lemma PayConservesMoney(m: seq<Entry>, things: seq<Thing>, stacks: Stacks, money: nat)
    requires Priced(m, stacks) && money > 0 && Distinct(Ids(things))
    requires forall i :: 0 <= i < |m| ==> m[i].id in Ids(things)
    ensures var p := Pay(m, stacks, money);
            GetMoney(things, stacks) + p.owed == GetMoney(things, p.stacks) + money + p.change
  {
    PayConserves(m, stacks, money, Ids(things));
    GetMoneyIsTotal(things, stacks);
    GetMoneyIsTotal(things, Pay(m, stacks, money).stacks);
  }

  // ---------------------------------------------------------------- where new coins go

  /** What a cylinder holds, and the tile under it; new items are numbered from `nextId` on. */
  datatype Hold = Hold(things: seq<Thing>, stacks: Stacks, tile: seq<Stack>, nextId: nat)

  ghost predicate Proper(h: Hold) {
    && Distinct(Ids(h.things))
    && (forall id :: id in Ids(h.things) ==> id < h.nextId)
    && (forall id :: id in h.stacks ==> id < h.nextId)
  }

  /** A new item, in the cylinder or, when that has no room for it, on the tile. */
  function Put(h: Hold, item: Stack, room: nat -> bool): Hold {
    if room(h.nextId) then Hold(h.things + [Leaf(h.nextId)], h.stacks[h.nextId := item], h.tile, h.nextId + 1)
    else Hold(h.things, h.stacks, h.tile + [item], h.nextId + 1)
  }

  /** The next stack of so many coins. */
  function Batch(count: nat): nat {
    if count < 100 then count else 100
  }

  /** The `addCoins` lambda; `room(id)` says whether the cylinder takes the new item `id`. */
  function PutCoins(h: Hold, kind: Kind, count: nat, room: nat -> bool): Hold
    decreases count
  {
    if count == 0 then h
    else
      var createCount := Batch(count);
      PutCoins(Put(h, Stack(kind, createCount), room), kind, count - createCount, room)
  }

  function PutMoney(h: Hold, c: CoinCounts, room: nat -> bool): Hold {
    PutCoins(PutCoins(PutCoins(h, Crystal, c.crystal, room), Platinum, c.platinum, room), Gold, c.gold, room)
  }

  /** The cylinder takes every new item, or none. */
  ghost predicate Roomy(room: nat -> bool, firstNew: nat) {
    forall id :: id >= firstNew ==> room(id)
  }

  ghost predicate Full(room: nat -> bool, firstNew: nat) {
    forall id :: id >= firstNew ==> !room(id)
  }

  /** A stack that `addCoins` may create. */
  predicate CoinStack(item: Stack, kind: Kind) {
    item.kind == kind && 0 < item.count <= 100
  }

  /** What happens to coins: each stack is one of 1 to 100 coins of the kind, in the cylinder where
      there is room for it and on the tile otherwise; nothing else changes. */
  ghost predicate CoinsPlaced(h: Hold, h': Hold, kind: Kind, room: nat -> bool) {
    && h.nextId <= h'.nextId && h.tile <= h'.tile && h.things <= h'.things
    && (forall id :: id < h.nextId ==> (id in h'.stacks <==> id in h.stacks))
    && (forall id :: id < h.nextId && id in h.stacks ==> h'.stacks[id] == h.stacks[id])
    && (forall id :: h.nextId <= id < h'.nextId ==> (id in h'.stacks <==> room(id)))
    && (forall id :: id in h'.stacks && id >= h.nextId ==> id < h'.nextId && CoinStack(h'.stacks[id], kind))
    && (forall i :: |h.things| <= i < |h'.things| ==>
          h'.things[i].Leaf? && h.nextId <= h'.things[i].id < h'.nextId && room(h'.things[i].id))
    && (forall i :: |h.tile| <= i < |h'.tile| ==> CoinStack(h'.tile[i], kind))
    && |h'.things| - |h.things| + |h'.tile| - |h.tile| == h'.nextId - h.nextId
  }

  lemma PutPlaces(h: Hold, item: Stack, room: nat -> bool)
    requires (forall id :: id in h.stacks ==> id < h.nextId) && CoinStack(item, item.kind)
    ensures CoinsPlaced(h, Put(h, item, room), item.kind, room)
    ensures forall id :: id in Put(h, item, room).stacks ==> id < h.nextId + 1
  {
    assert (h.tile + [item])[..|h.tile|] == h.tile;
  }

  lemma PlacedTwice(h: Hold, h1: Hold, h2: Hold, kind: Kind, room: nat -> bool)
    requires CoinsPlaced(h, h1, kind, room) && CoinsPlaced(h1, h2, kind, room)
    ensures CoinsPlaced(h, h2, kind, room)
  {
    forall i | |h.things| <= i < |h2.things|
      ensures h2.things[i].Leaf? && h.nextId <= h2.things[i].id < h2.nextId && room(h2.things[i].id)
    {
      assert i < |h1.things| ==> h2.things[i] == h1.things[i];
    }
    forall i | |h.tile| <= i < |h2.tile|
      ensures CoinStack(h2.tile[i], kind)
    {
      assert i < |h1.tile| ==> h2.tile[i] == h1.tile[i];
    }
  }

  /** Where any number of coins of one kind goes, in as few stacks as can be. */
  lemma {:induction false} CoinsArePlaced(h: Hold, kind: Kind, count: nat, room: nat -> bool)
    requires forall id :: id in h.stacks ==> id < h.nextId
    ensures CoinsPlaced(h, PutCoins(h, kind, count, room), kind, room)
    ensures PutCoins(h, kind, count, room).nextId == h.nextId + CeilDiv(count, 100)
    decreases count
  {
    if count > 0 {
      var createCount := Batch(count);
      var h1 := Put(h, Stack(kind, createCount), room);
      PutPlaces(h, Stack(kind, createCount), room);
      CoinsArePlaced(h1, kind, count - createCount, room);
      PlacedTwice(h, h1, PutCoins(h, kind, count, room), kind, room);
    }
  }

  function Worth(h: Hold): nat {
    GetMoney(h.things, h.stacks) + TileWorth(h.tile)
  }

  /** New coins of some worth, none with a unit above `unit`, and nothing else changed. Coins that the
      cylinder has room for are all in it; coins that it has no room for are all on the tile. */
  ghost predicate MoneyAdded(h: Hold, h': Hold, worth: nat, unit: nat, room: nat -> bool) {
    && Proper(h') && h'.nextId >= h.nextId && Worth(h') == Worth(h) + worth
    && OnlyAdds(h.things, h.stacks, h.tile, h.nextId, h'.things, h'.stacks, h'.tile, unit)
    && (Roomy(room, h.nextId) ==>
          h'.tile == h.tile && GetMoney(h'.things, h'.stacks) == GetMoney(h.things, h.stacks) + worth)
    && (Full(room, h.nextId) ==> h'.things == h.things && h'.stacks == h.stacks)
  }

  lemma NothingAdded(h: Hold, unit: nat, room: nat -> bool)
    requires Proper(h)
    ensures MoneyAdded(h, h, 0, unit, room)
  {
  }

  lemma PutAdds(h: Hold, item: Stack, room: nat -> bool)
    requires Proper(h)
    ensures MoneyAdded(h, Put(h, item, room), item.Worth(), item.kind.Unit(), room)
  {
    if room(h.nextId) {
      InsideFacts(h.things, h.stacks, h.tile, h.nextId, item);
    } else {
      assert (h.tile + [item])[..|h.tile|] == h.tile;
    }
  }

  lemma AddedTwice(h: Hold, h1: Hold, h2: Hold, worth1: nat, worth2: nat, worth: nat, unit1: nat, unit2: nat,
                   unit: nat, room: nat -> bool)
    requires Proper(h) && worth == worth1 + worth2 && unit1 <= unit && unit2 <= unit
    requires MoneyAdded(h, h1, worth1, unit1, room) && MoneyAdded(h1, h2, worth2, unit2, room)
    ensures MoneyAdded(h, h2, worth, unit, room)
  {
    OnlyAddsTrans(h.things, h.stacks, h.tile, h.nextId, h1.things, h1.stacks, h1.tile, h1.nextId,
                  h2.things, h2.stacks, h2.tile, unit1, unit2, unit);
  }

  /** The worth of the stacks one by one. */
  function StackedWorth(kind: Kind, count: nat): nat {
    if count == 0 then 0
    else
      var createCount := Batch(count);
      Stack(kind, createCount).Worth() + StackedWorth(kind, count - createCount)
  }

  lemma {:induction false} StackedIs(kind: Kind, count: nat)
    ensures StackedWorth(kind, count) == Stack(kind, count).Worth()
  {
    if count > 0 {
      var createCount := Batch(count);
      StackedIs(kind, count - createCount);
      WorthSplits(kind, createCount, count - createCount, count);
    }
  }

  lemma {:induction false} StacksAdded(h: Hold, kind: Kind, count: nat, limit: nat, room: nat -> bool)
    requires Proper(h) && UnitIf(kind, count) <= limit
    ensures MoneyAdded(h, PutCoins(h, kind, count, room), StackedWorth(kind, count), limit, room)
    decreases count
  {
    if count == 0 {
      NothingAdded(h, limit, room);
    } else {
      var createCount := Batch(count);
      var left, item := count - createCount, Stack(kind, createCount);
      var h1, h2 := Put(h, item, room), PutCoins(h, kind, count, room);
      PutAdds(h, item, room);
      StacksAdded(h1, kind, left, limit, room);
      assert h2 == PutCoins(h1, kind, left, room);
      AddedTwice(h, h1, h2, item.Worth(), StackedWorth(kind, left), StackedWorth(kind, count),
                 kind.Unit(), limit, limit, room);
    }
  }

  lemma CoinsAdded(h: Hold, kind: Kind, count: nat, limit: nat, room: nat -> bool)
    requires Proper(h) && UnitIf(kind, count) <= limit
    ensures MoneyAdded(h, PutCoins(h, kind, count, room), Stack(kind, count).Worth(), limit, room)
  {
    StacksAdded(h, kind, count, limit, room);
    StackedIs(kind, count);
  }

  lemma WorthSplits(kind: Kind, a: nat, b: nat, count: nat)
    requires count == a + b
    ensures Stack(kind, count).Worth() == Stack(kind, a).Worth() + Stack(kind, b).Worth()
  {
    Distribute(kind.Unit(), a, b);
  }

  lemma AmountAdded(h: Hold, c: CoinCounts, limit: nat, room: nat -> bool)
    requires Proper(h)
    requires UnitIf(Crystal, c.crystal) <= limit && UnitIf(Platinum, c.platinum) <= limit
    requires UnitIf(Gold, c.gold) <= limit
    ensures MoneyAdded(h, PutMoney(h, c, room), c.Worth(), limit, room)
  {
    var h1 := PutCoins(h, Crystal, c.crystal, room);
    var h2 := PutCoins(h1, Platinum, c.platinum, room);
    var h3 := PutCoins(h2, Gold, c.gold, room);
    CoinsAdded(h, Crystal, c.crystal, limit, room);
    CoinsAdded(h1, Platinum, c.platinum, limit, room);
    CoinsAdded(h2, Gold, c.gold, limit, room);
    var x, y, z := Stack(Crystal, c.crystal).Worth(), Stack(Platinum, c.platinum).Worth(), Stack(Gold, c.gold).Worth();
    AddedTwice(h, h1, h2, x, y, x + y, limit, limit, limit, room);
    AddedTwice(h, h2, h3, x + y, z, c.Worth(), limit, limit, limit, room);
  }

  lemma MoneyIsAdded(h: Hold, money: nat, room: nat -> bool)
    requires Proper(h)
    ensures MoneyAdded(h, PutMoney(h, CoinsFor(money), room), CoinsFor(money).Worth(), money, room)
  {
    CoinsForLimit(money);
    AmountAdded(h, CoinsFor(money), money, room);
  }

  lemma CoinsForLimit(money: nat)
    ensures UnitIf(Crystal, CoinsFor(money).crystal) <= money
    ensures UnitIf(Platinum, CoinsFor(money).platinum) <= money
    ensures UnitIf(Gold, CoinsFor(money).gold) <= money
  {
    if money == 0 {
      CoinsForSmall(0);
    } else {
      CoinsForUnits(money);
    }
  }

  function Taken(h: Hold, id: nat, count: nat): Hold
    requires id in h.stacks && count <= h.stacks[id].count
  {
    h.(stacks := Take(h.stacks, id, count))
  }

  lemma TakenFacts(h: Hold, id: nat, count: nat)
    requires Proper(h) && id in Ids(h.things) && id in h.stacks && count <= h.stacks[id].count
    ensures Proper(Taken(h, id, count))
    ensures Worth(Taken(h, id, count)) + Stack(h.stacks[id].kind, count).Worth() == Worth(h)
  {
    TakeWorth(h.things, h.stacks, id, count);
  }

  /** It makes no difference whether a stack is broken before or after the change is given. */
  lemma {:induction false} TakeThenPut(h: Hold, id: nat, taken: nat, kind: Kind, count: nat, room: nat -> bool)
    requires id in h.stacks && id < h.nextId && taken <= h.stacks[id].count
    ensures var h' := PutCoins(h, kind, count, room);
            && id in h'.stacks && id < h'.nextId && h'.stacks[id] == h.stacks[id]
            && PutCoins(Taken(h, id, taken), kind, count, room) == Taken(h', id, taken)
    decreases count
  {
    if count > 0 {
      var createCount := Batch(count);
      var item := Stack(kind, createCount);
      assert Put(Taken(h, id, taken), item, room) == Taken(Put(h, item, room), id, taken);
      TakeThenPut(Put(h, item, room), id, taken, kind, count - createCount, room);
    }
  }

  lemma TakeThenPutMoney(h: Hold, id: nat, taken: nat, c: CoinCounts, room: nat -> bool)
    requires id in h.stacks && id < h.nextId && taken <= h.stacks[id].count
    ensures var h' := PutMoney(h, c, room);
            && id in h'.stacks && h'.stacks[id] == h.stacks[id]
            && PutMoney(Taken(h, id, taken), c, room) == Taken(h', id, taken)
  {
    var h1 := PutCoins(h, Crystal, c.crystal, room);
    var h2 := PutCoins(h1, Platinum, c.platinum, room);
    TakeThenPut(h, id, taken, Crystal, c.crystal, room);
    TakeThenPut(h1, id, taken, Platinum, c.platinum, room);
    TakeThenPut(h2, id, taken, Gold, c.gold, room);
  }

  lemma BrokenFacts(h: Hold, id: nat, taken: nat, change: nat, room: nat -> bool)
    requires Proper(h) && id in Ids(h.things) && id in h.stacks && taken <= h.stacks[id].count
    ensures var given, broken := PutMoney(h, CoinsFor(change), room), Taken(h, id, taken);
            var h' := PutMoney(broken, CoinsFor(change), room);
            && id in given.stacks && given.stacks[id] == h.stacks[id] && h' == Taken(given, id, taken)
            && MoneyAdded(broken, h', CoinsFor(change).Worth(), change, room)
            && Worth(h') + Stack(h.stacks[id].kind, taken).Worth() == Worth(h) + CoinsFor(change).Worth()
  {
    TakenFacts(h, id, taken);
    MoneyIsAdded(Taken(h, id, taken), change, room);
    TakeThenPutMoney(h, id, taken, CoinsFor(change), room);
  }

  /** After a payment: what the plan leaves of the coins, and the change. */
  ghost function Spent(h: Hold, m: seq<Entry>, price: nat, room: nat -> bool): Hold
    requires Priced(m, h.stacks) && price > 0
  {
    var p := Pay(m, h.stacks, price);
    PutMoney(h.(stacks := p.stacks), CoinsFor(p.change), room)
  }

  /** In the middle of a payment: what the plan for the rest will do is what it does for all. */
  ghost predicate Working(before: Hold, all: seq<Entry>, price: nat, h: Hold, m: seq<Entry>, money: nat,
                          room: nat -> bool)
  {
    && Priced(all, before.stacks) && price > 0 && Priced(m, h.stacks) && money > 0
    && Spent(h, m, money, room) == Spent(before, all, price, room)
    && Pay(m, h.stacks, money).owed == Pay(all, before.stacks, price).owed
  }

  /** One more entry of the plan. */
  lemma SpentStep(h: Hold, m: seq<Entry>, money: nat, room: nat -> bool)
    requires Priced(m, h.stacks) && m != [] && money > 0
    ensures m[0].id in h.stacks
    ensures var h1 := h.(stacks := h.stacks - {m[0].id});
            && (m[0].worth < money ==>
                  Priced(m[1..], h1.stacks) && Spent(h, m, money, room) == Spent(h1, m[1..], money - m[0].worth, room)
                  && Pay(m, h.stacks, money).owed == Pay(m[1..], h1.stacks, money - m[0].worth).owed)
            && (m[0].worth == money ==> Spent(h, m, money, room) == h1 && Pay(m, h.stacks, money).owed == 0)
  {
    PricedRest(m, h.stacks);
    NoChange(h.(stacks := h.stacks - {m[0].id}), room);
  }

  lemma SpentAll(h: Hold, money: nat, room: nat -> bool)
    requires money > 0
    ensures Priced([], h.stacks) && Spent(h, [], money, room) == h && Pay([], h.stacks, money).owed == money
  {
    NoChange(h, room);
  }

  lemma NoChange(h: Hold, room: nat -> bool)
    ensures PutMoney(h, CoinsFor(0), room) == h
  {
    CoinsForSmall(0);
  }

  lemma {:induction false} PayOnlyTakes(m: seq<Entry>, stacks: Stacks, money: nat)
    requires Priced(m, stacks) && money > 0
    ensures forall id :: id in Pay(m, stacks, money).stacks ==> id in stacks
    ensures 0 <= Pay(m, stacks, money).change < 10000
  {
    if m != [] {
      PricedRest(m, stacks);
      if m[0].worth < money {
        PayOnlyTakes(m[1..], stacks - {m[0].id}, money - m[0].worth);
      } else if m[0].worth > money {
        BreakCount(stacks[m[0].id], money);
      }
    }
  }

  /** What a payment does to the cylinder and its tile: they lose the price but for what stays owed, and
      change goes on the tile only where the cylinder has no room for it. */
  lemma SpentFacts(h: Hold, m: seq<Entry>, price: nat, room: nat -> bool)
    requires Proper(h) && Priced(m, h.stacks) && price > 0
    requires forall i :: 0 <= i < |m| ==> m[i].id in Ids(h.things)
    ensures var p, h' := Pay(m, h.stacks, price), Spent(h, m, price, room);
            && Proper(h') && Worth(h') + price == Worth(h) + p.owed
            && PaidBy(m, h.stacks, h.tile, h.nextId, price, h'.stacks, h'.tile)
            && (Roomy(room, h.nextId) ==> h'.tile == h.tile)
            && (Full(room, h.nextId) ==> h'.things == h.things && h'.stacks == p.stacks)
  {
    var p := Pay(m, h.stacks, price);
    PayOnlyTakes(m, h.stacks, price);
    PayConservesMoney(m, h.things, h.stacks, price);
    CoinsForSmall(p.change);
    MoneyIsAdded(h.(stacks := p.stacks), p.change, room);
  }

  class Cylinder {
    const isPlayer: bool
    var things: seq<Thing>
    var stacks: Stacks
    var tile: seq<Stack>
    var bank: nat
    var nextId: nat

    ghost predicate Valid()
      reads this
    {
      Proper(Held())
    }

    ghost function Held(): Hold
      reads this
    {
      Hold(things, stacks, tile, nextId)
    }

    /** Coins carried, coins dropped on the tile, and the bank account. */
    ghost function Wealth(): nat
      reads this
    {
      Worth(Held()) + bank
    }

    /** The money map the payment works through. */
    ghost function MoneyMap(): seq<Entry>
      reads this
    {
      Catalog(BreadthFirst([things]), stacks, [])
    }

    constructor (isPlayer: bool, things: seq<Thing>, stacks: Stacks, bank: nat, nextId: nat)
      requires Distinct(Ids(things))
      requires (forall id :: id in Ids(things) ==> id < nextId) && (forall id :: id in stacks ==> id < nextId)
      ensures Valid() && this.isPlayer == isPlayer && this.things == things && this.stacks == stacks
      ensures this.bank == bank && tile == []
    {
      this.isPlayer, this.things, this.stacks, this.bank, this.nextId := isPlayer, things, stacks, bank, nextId;
      tile := [];
    }

    lemma MoneyMapFacts()
      requires Valid()
      ensures Ascending(MoneyMap()) && Priced(MoneyMap(), stacks)
      ensures forall id :: id in EntryIds(MoneyMap()) <==> id in Ids(things) && WorthOf(id, stacks) != 0
      ensures Sum(MoneyMap()) == GetMoney(things, stacks)
    {
      var ids := BreadthFirst([things]);
      CountsAgree(things, stacks);
      MeetsEveryItem(things);
      CatalogPriced(ids, stacks);
      CatalogSum(ids, stacks, []);
      assert forall id :: id in ids <==> id in multiset(ids);
      assert forall id :: id in Ids(things) <==> id in multiset(Ids(things));
    }

    /** The payment plan for a price: priced entries of this cylinder, and what coins leave owed. */
    lemma PlanFacts(price: nat)
      requires Valid() && price > 0
      ensures Priced(MoneyMap(), stacks)
      ensures forall i :: 0 <= i < |MoneyMap()| ==> MoneyMap()[i].id in Ids(things)
      ensures Pay(MoneyMap(), stacks, price).owed
           == if GetMoney(things, stacks) < price then price - GetMoney(things, stacks) else 0
    {
      MoneyMapFacts();
      var m := MoneyMap();
      assert forall i :: 0 <= i < |m| ==> EntryIds(m)[i] == m[i].id;
      PayOwes(m, stacks, price);
    }

    /** The loop bodies of the collection: containers to the queue, coins to the map. */
    method Visit(list: seq<Thing>, containers: seq<seq<Thing>>, m: seq<Entry>, count: nat)
      returns (containers': seq<seq<Thing>>, m': seq<Entry>, count': nat)
      ensures containers' == containers + Boxes(list)
      ensures m' == Catalog(Leaves(list), stacks, m)
      ensures count' == count + Total(Leaves(list), stacks)
    {
      containers', m', count' := containers, m, count;
      for i := 0 to |list|
        invariant containers' + Boxes(list[i..]) == containers + Boxes(list)
        invariant Catalog(Leaves(list[i..]), stacks, m') == Catalog(Leaves(list), stacks, m)
        invariant count' + Total(Leaves(list[i..]), stacks) == count + Total(Leaves(list), stacks)
      {
        ThingStep(list, i, stacks, m');
        match list[i] {
          case Box(inner) =>
            containers' := containers' + [inner];
          case Leaf(id) =>
            var worth := if id in stacks then stacks[id].Worth() else 0;
            if worth != 0 {
              count' := count' + worth;
              m' := Emplace(m', Entry(worth, id));
            }
        }
      }
    }

    /** Both collection loops: the cylinder's own things, then the queue of containers. */
    method Collect() returns (m: seq<Entry>, count: nat)
      requires Valid()
      ensures m == MoneyMap() && count == GetMoney(things, stacks)
    {
      var containers;
      containers, m, count := Visit(things, [], [], 0);
      CollectingStarts(things, stacks);
      assert containers == [things][1..] + Boxes(things);
      m, count := Drain(containers, m, count);
    }

    method Drain(containers0: seq<seq<Thing>>, m0: seq<Entry>, count0: nat) returns (m: seq<Entry>, count: nat)
      requires Collecting(things, stacks, containers0, m0, count0)
      ensures m == MoneyMap() && count == GetMoney(things, stacks)
    {
      var containers, i := containers0, 0;
      m, count := m0, count0;
      while i < |containers|
        invariant 0 <= i <= |containers|
        invariant Collecting(things, stacks, containers[i..], m, count)
        decreases QueueSize(containers[i..])
      {
        ghost var queue := containers[i..];
        CollectingStep(things, stacks, queue, m, count);
        var container := containers[i];
        i := i + 1;
        containers, m, count := Visit(container, containers, m, count);
        assert containers[i..] == queue[1..] + Boxes(container);
      }
      CountsAgree(things, stacks);
    }

    /** One stack of new coins, in the cylinder or, when it has no room, on the tile. */
    method AddItem(item: Stack, room: nat -> bool)
      requires Valid()
      modifies this`things, this`stacks, this`tile, this`nextId
      ensures Valid() && MoneyAdded(old(Held()), Held(), item.Worth(), item.kind.Unit(), room)
      ensures Held() == Put(old(Held()), item, room)
      ensures room(old(nextId)) ==>
                things == old(things) + [Leaf(old(nextId))] && stacks == old(stacks)[old(nextId) := item]
                && tile == old(tile)
      ensures !room(old(nextId)) ==> things == old(things) && stacks == old(stacks) && tile == old(tile) + [item]
    {
      PutAdds(Held(), item, room);
      if room(nextId) {
        things, stacks := things + [Leaf(nextId)], stacks[nextId := item];
      } else {
        tile := tile + [item];
      }
      nextId := nextId + 1;
      assert Held() == Put(old(Held()), item, room);
    }

    /** The `addCoins` lambda: stacks of at most 100, each in the cylinder if that has room for it. */
    method AddCoins(kind: Kind, count: nat, room: nat -> bool)
      requires Valid()
      modifies this`things, this`stacks, this`tile, this`nextId
      ensures Valid() && MoneyAdded(old(Held()), Held(), Stack(kind, count).Worth(), UnitIf(kind, count), room)
      ensures Held() == PutCoins(old(Held()), kind, count, room) && CoinsPlaced(old(Held()), Held(), kind, room)
    {
      CoinsArePlaced(Held(), kind, count, room);
      CoinsAdded(Held(), kind, count, UnitIf(kind, count), room);
      var left: nat := count;
      while left > 0
        invariant Valid() && left <= count
        invariant PutCoins(Held(), kind, left, room) == PutCoins(old(Held()), kind, count, room)
      {
        var createCount := if left < 100 then left else 100;
        AddItem(Stack(kind, createCount), room);
        left := left - createCount;
      }
    }

    /** `addMoney`. No new coin is worth more than the amount itself. */
    method AddMoney(money: nat, room: nat -> bool)
      requires Valid() && money < U64
      modifies this`things, this`stacks, this`tile, this`nextId
      ensures Valid() && MoneyAdded(old(Held()), Held(), CoinsFor(money).Worth(), money, room)
      ensures Held() == PutMoney(old(Held()), CoinsFor(money), room)
    {
      MoneyIsAdded(Held(), money, room);
      if money == 0 {
        CoinsForSmall(0);
        return;
      }
      var left := money;
      var crystalCoins := left / 10000 % U32;
      left := left - crystalCoins * 10000 % U32;
      var platinumCoins := left / 100 % U16;
      left := left - platinumCoins * 100;
      var coins := CoinCounts(crystalCoins, platinumCoins, left % U32);
      assert coins == CoinsFor(money);
      AddCoins(Crystal, coins.crystal, room);
      AddCoins(Platinum, coins.platinum, room);
      if coins.gold > 0 {
        AddCoins(Gold, coins.gold, room);
      }
    }

    /** `internalRemoveItem` on an item of this cylinder. */
    method RemoveItem(id: nat, count: nat)
      requires Valid() && id in stacks && count <= stacks[id].count
      modifies this`stacks
      ensures Valid() && stacks == Take(old(stacks), id, count)
    {
      if count == stacks[id].count {
        stacks := stacks - {id};
      } else {
        stacks := stacks[id := stacks[id].(count := stacks[id].count - count)];
      }
    }

    function Usable(useBalance: bool): nat
      reads this
    {
      if useBalance && isPlayer then bank else 0
    }

    /** `internalRemoveItem` without a count. */
    method RemoveWhole(id: nat)
      requires Valid() && id in stacks
      modifies this`stacks
      ensures Valid() && Held() == old(Held()).(stacks := old(stacks) - {id})
    {
      RemoveItem(id, stacks[id].count);
    }

    /** The branch that breaks a stack: change first, then the coins are taken. */
    method BreakStack(id: nat, removeCount: nat, change: nat, room: nat -> bool)
      requires Valid() && id in Ids(things) && id in stacks && removeCount <= stacks[id].count
      requires change < U64
      modifies this`things, this`stacks, this`tile, this`nextId
      ensures Valid()
      ensures Wealth() + Stack(old(stacks[id]).kind, removeCount).Worth() == old(Wealth()) + CoinsFor(change).Worth()
      ensures OnlyAdds(old(things), Take(old(stacks), id, removeCount), old(tile), old(nextId),
                       things, stacks, tile, change)
      ensures Held() == PutMoney(Taken(old(Held()), id, removeCount), CoinsFor(change), room)
    {
      BrokenFacts(Held(), id, removeCount, change, room);
      AddMoney(change, room);
      RemoveItem(id, removeCount);
      assert Held() == PutMoney(Taken(old(Held()), id, removeCount), CoinsFor(change), room);
    }

    /** The entry that is worth more than what is left to pay. */
    method BreakEntry(e: Entry, ghost m: seq<Entry>, money: nat, room: nat -> bool)
      requires Valid() && Priced(m, stacks) && m != [] && m[0] == e && 0 < money < e.worth && e.id in Ids(things)
      modifies this`things, this`stacks, this`tile, this`nextId
      ensures Pay(m, old(stacks), money).owed == 0 && Held() == Spent(old(Held()), m, money, room)
    {
      BreakCount(stacks[e.id], money);
      PayOnlyTakes(m, stacks, money);
      var worth := e.worth / stacks[e.id].count;
      var removeCount := CeilDiv(money, worth);
      BreakStack(e.id, removeCount, worth * removeCount - money, room);
    }

    /** The payment loop: returns what the coins did not cover. */
    method SpendCoins(moneyMap: seq<Entry>, price: nat, room: nat -> bool) returns (money: nat)
      requires Valid() && price > 0 && Priced(moneyMap, stacks)
      requires forall i :: 0 <= i < |moneyMap| ==> moneyMap[i].id in Ids(things)
      modifies this`things, this`stacks, this`tile, this`nextId
      ensures Valid()
      ensures money == Pay(moneyMap, old(stacks), price).owed
      ensures Wealth() + price == old(Wealth()) + money
      ensures PaidBy(moneyMap, old(stacks), old(tile), old(nextId), price, stacks, tile)
      ensures Held() == Spent(old(Held()), moneyMap, price, room)
    {
      SpentFacts(Held(), moneyMap, price, room);
      money := WorkThrough(moneyMap, price, room);
    }

    method WorkThrough(moneyMap: seq<Entry>, price: nat, room: nat -> bool) returns (money: nat)
      requires Valid() && price > 0 && Priced(moneyMap, stacks)
      requires forall i :: 0 <= i < |moneyMap| ==> moneyMap[i].id in Ids(things)
      modifies this`things, this`stacks, this`tile, this`nextId
      ensures money == Pay(moneyMap, old(stacks), price).owed
      ensures Held() == Spent(old(Held()), moneyMap, price, room)
    {
      ghost var before := Held();
      assert moneyMap[0..] == moneyMap;
      money := price;
      for i := 0 to |moneyMap|
        invariant money > 0 && things == old(things) && Valid()
        invariant Working(before, moneyMap, price, Held(), moneyMap[i..], money, room)
      {
        var e, rest := moneyMap[i], moneyMap[i..];
        assert rest[0] == e && rest[1..] == moneyMap[i + 1..];
        SpentStep(Held(), rest, money, room);
        if e.worth < money {
          RemoveWhole(e.id);
          money := money - e.worth;
        } else if e.worth > money {
          BreakEntry(e, rest, money, room);
          return 0;
        } else {
          RemoveWhole(e.id);
          return 0;
        }
      }
      SpentAll(Held(), money, room);
      assert moneyMap[|moneyMap|..] == [];
    }

    /** The payment itself: coins first, and the bank for what they do not cover. The guard on
        the balance never fails. */
    method Settle(moneyMap: seq<Entry>, price: nat, useBalance: bool, room: nat -> bool)
      requires Valid() && price > 0 && moneyMap == MoneyMap()
      requires price <= GetMoney(things, stacks) + Usable(useBalance)
      modifies this
      ensures Valid()
      ensures Wealth() + price == old(Wealth())
      ensures Settled(moneyMap, old(stacks), old(tile), old(nextId), old(bank), price, stacks, tile, bank)
      ensures Priced(moneyMap, old(stacks)) && Held() == Spent(old(Held()), moneyMap, price, room)
    {
      PlanFacts(price);
      var money := SpendCoins(moneyMap, price, room);
      if money == 0 {
        return;
      }
      assert useBalance && isPlayer && bank >= money;
      if useBalance && isPlayer && bank >= money {
        bank := bank - money;
      }
    }

    /** `removeMoney`. The comparison is made in 64 bits, so it can refuse a payment when the
        coins and the balance together do not fit; it never accepts one it cannot make. */
    method RemoveMoney(price: nat, useBalance: bool, room: nat -> bool) returns (ok: bool)
      requires Valid() && price < U64
      modifies this
      ensures Valid()
      ensures ok == (price == 0 || Suffices(old(GetMoney(things, stacks)),
                                            if useBalance && isPlayer then old(bank) else 0, price))
      ensures !ok || price == 0 ==> things == old(things) && stacks == old(stacks) && tile == old(tile)
                                    && bank == old(bank) && nextId == old(nextId)
      ensures ok ==> Wealth() + price == old(Wealth())
      ensures ok && price > 0 ==>
                Settled(old(MoneyMap()), old(stacks), old(tile), old(nextId), old(bank), price, stacks, tile, bank)
                && Held() == Spent(old(Held()), old(MoneyMap()), price, room)
      ensures ok && Roomy(room, old(nextId)) ==> tile == old(tile)
      ensures ok && price > 0 && Full(room, old(nextId)) ==>
                things == old(things) && stacks == Pay(old(MoneyMap()), old(stacks), price).stacks
    {
      if price == 0 {
        return true;
      }
      var moneyMap, moneyCount := Collect();
      var balance := Usable(useBalance);
      if !Suffices(moneyCount, balance, price) {
        return false;
      }
      PlanFacts(price);
      SpentFacts(Held(), moneyMap, price, room);
      Settle(moneyMap, price, useBalance, room);
      ok := true;
    }
  }

  lemma PricedRest(m: seq<Entry>, stacks: Stacks)
    requires Priced(m, stacks) && m != []
    ensures Priced(m[1..], stacks - {m[0].id}) && m[0].id in stacks
  {
    assert forall i :: 0 <= i < |m[1..]| ==> m[1..][i] == m[i + 1] && m[i + 1].id != m[0].id;
  }
}
