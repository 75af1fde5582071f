/** The registry of monsters: a vector with swap-remove and two indexes into it. */
module MonsterIndex {
  import opened Basics

  datatype Monster = Monster(id: nat, name: string)

  datatype Registry = Registry(monsters: seq<Monster>, nameIndex: map<string, nat>, idIndex: map<nat, nat>)

  const EMPTY := Registry([], map[], map[])

  /** The id index is the exact inverse of the vector; a name index entry may be missing, but one
      that is there points at a monster of that name. */
  ghost predicate Valid(r: Registry) {
    IdsExact(r) && NamesRight(r)
  }

  ghost predicate IdsExact(r: Registry) {
    && (forall id :: id in r.idIndex ==>
          r.idIndex[id] < |r.monsters| && r.monsters[r.idIndex[id]].id == id)
    && (forall i :: 0 <= i < |r.monsters| ==>
          r.monsters[i].id in r.idIndex && r.idIndex[r.monsters[i].id] == i)
  }

  ghost predicate NamesRight(r: Registry) {
    forall n :: n in r.nameIndex ==> r.nameIndex[n] < |r.monsters| && r.monsters[r.nameIndex[n]].name == n
  }

  // ---------------------------------------------------------------- the operations

  function Added(r: Registry, m: Monster): Registry {
    Registry(r.monsters + [m], r.nameIndex[m.name := |r.monsters|], r.idIndex[m.id := |r.monsters|])
  }

  /** The last monster takes the place of the removed one. */
  function Removed(r: Registry, m: Monster): Registry {
    if m.id !in r.idIndex || r.idIndex[m.id] >= |r.monsters| then r
    else
      var index, last := r.idIndex[m.id], |r.monsters| - 1;
      var names, ids := r.nameIndex - {m.name}, r.idIndex - {m.id};
      if index == last then Registry(r.monsters[..last], names, ids)
      else
        var moved := r.monsters[last];
        Registry(r.monsters[index := moved][..last], names[moved.name := index], ids[moved.id := index])
  }

  /** `getMonsterByID`. */
  function GetById(r: Registry, id: nat): Option<Monster> {
    if id == 0 || id !in r.idIndex || r.idIndex[id] >= |r.monsters| then None
    else Some(r.monsters[r.idIndex[id]])
  }

  function Search(ms: seq<Monster>, id: nat): Option<Monster> {
    if ms == [] then None else if ms[0].id == id then Some(ms[0]) else Search(ms[1..], id)
  }

  // ---------------------------------------------------------------- what they keep

  lemma AddedKeeps(r: Registry, m: Monster)
    requires Valid(r) && m.id !in r.idIndex
    ensures Valid(Added(r, m))
  {
    var r' := Added(r, m);
    forall i | 0 <= i < |r'.monsters|
      ensures r'.monsters[i].id in r'.idIndex && r'.idIndex[r'.monsters[i].id] == i
    {
      assert i < |r.monsters| ==> r'.monsters[i] == r.monsters[i];
    }
  }

  /** Only monsters that are registered, under the name they have, are removed. */
  predicate Known(r: Registry, m: Monster) {
    m.id in r.idIndex && r.idIndex[m.id] < |r.monsters| ==> r.monsters[r.idIndex[m.id]] == m
  }

  lemma RemovedKeeps(r: Registry, m: Monster)
    requires Valid(r) && Known(r, m)
    ensures Valid(Removed(r, m))
  {
    if m.id in r.idIndex {
      RemovedIds(r, m);
      RemovedNames(r, m);
    }
  }

  /** The vector and the names after a removal. */
  lemma RemovedShape(r: Registry, m: Monster)
    requires m.id in r.idIndex && r.idIndex[m.id] < |r.monsters|
    ensures var r', index, last := Removed(r, m), r.idIndex[m.id], |r.monsters| - 1;
            && |r'.monsters| == last
            && (forall i :: 0 <= i < last ==> r'.monsters[i] == r.monsters[if i == index then last else i])
            && (forall n :: n in r'.nameIndex <==> (index != last && n == r.monsters[last].name)
                                                   || (n in r.nameIndex && n != m.name))
            && (forall n :: n in r'.nameIndex ==>
                  r'.nameIndex[n] == if index != last && n == r.monsters[last].name then index else r.nameIndex[n])
  {
  }

  lemma RemovedIds(r: Registry, m: Monster)
    requires IdsExact(r) && m.id in r.idIndex
    ensures IdsExact(Removed(r, m))
  {
    var r', index, last := Removed(r, m), r.idIndex[m.id], |r.monsters| - 1;
    RemovedShape(r, m);
    assert r.idIndex[r.monsters[last].id] == last;
    forall i | 0 <= i < |r'.monsters|
      ensures r'.monsters[i].id in r'.idIndex && r'.idIndex[r'.monsters[i].id] == i
    {
      assert r.idIndex[r.monsters[i].id] == i;
    }
    forall id | id in r'.idIndex
      ensures r'.idIndex[id] < |r'.monsters| && r'.monsters[r'.idIndex[id]].id == id
    {
      assert id in r.idIndex && id != m.id && r.idIndex[id] != index;
    }
  }

  lemma RemovedNames(r: Registry, m: Monster)
    requires Valid(r) && Known(r, m) && m.id in r.idIndex
    ensures NamesRight(Removed(r, m))
  {
    var r', index, last := Removed(r, m), r.idIndex[m.id], |r.monsters| - 1;
    RemovedShape(r, m);
    forall n | n in r'.nameIndex
      ensures r'.nameIndex[n] < |r'.monsters| && r'.monsters[r'.nameIndex[n]].name == n
    {
      if index == last || n != r.monsters[last].name {
        assert r.monsters[r.nameIndex[n]].name == n && r.monsters[index].name == m.name;
      }
    }
  }

  /** The removed monster leaves the vector, and no other. */
  lemma RemovedContents(r: Registry, m: Monster)
    requires Valid(r) && Known(r, m)
    ensures multiset(Removed(r, m).monsters) == multiset(r.monsters) - multiset{m}
  {
    if m.id in r.idIndex {
      SwapPop(r.monsters, r.idIndex[m.id]);
    } else {
      assert m !in r.monsters;
    }
  }

  lemma SwapPop(ms: seq<Monster>, index: nat)
    requires index < |ms|
    ensures var last := |ms| - 1;
            multiset(if index == last then ms[..last] else ms[index := ms[last]][..last])
            == multiset(ms) - multiset{ms[index]}
  {
    var last := |ms| - 1;
    assert ms == ms[..last] + [ms[last]];
    if index < last {
      var front, back := ms[..index], ms[index + 1..last];
      assert ms[..last] == front + [ms[index]] + back;
      assert ms[index := ms[last]][..last] == front + [ms[last]] + back;
    }
  }

  // ---------------------------------------------------------------- lookups

  lemma {:induction false} SearchFinds(ms: seq<Monster>, id: nat)
    ensures Search(ms, id).None? <==> forall i :: 0 <= i < |ms| ==> ms[i].id != id
    ensures Search(ms, id).Some? ==> exists i :: 0 <= i < |ms| && ms[i].id == id && Search(ms, id) == Some(ms[i])
  {
    if ms != [] && ms[0].id != id {
      SearchFinds(ms[1..], id);
      if Search(ms, id).Some? {
        var i :| 0 <= i < |ms[1..]| && ms[1..][i].id == id && Search(ms[1..], id) == Some(ms[1..][i]);
        assert ms[i + 1] == ms[1..][i];
      } else {
        assert forall i :: 1 <= i < |ms| ==> ms[i] == ms[1..][i - 1];
      }
    }
  }

  /** The indexed lookup is a linear search, except that id 0 finds nothing. */
  lemma LookupIsSearch(r: Registry, id: nat)
    requires Valid(r)
    ensures GetById(r, id) == if id == 0 then None else Search(r.monsters, id)
  {
    SearchFinds(r.monsters, id);
    if id != 0 && Search(r.monsters, id).Some? {
      var i :| 0 <= i < |r.monsters| && r.monsters[i].id == id && Search(r.monsters, id) == Some(r.monsters[i]);
      assert r.idIndex[r.monsters[i].id] == i;
    }
  }

  /** A new monster is found by its id and by its name, and all others as before, but for the name it
      shares with another. */
  lemma AddedFound(r: Registry, m: Monster, id: nat, name: string)
    requires Valid(r) && m.id !in r.idIndex
    ensures var r' := Added(r, m);
            && r'.monsters == r.monsters + [m]
            && GetById(r', id) == (if id != 0 && id == m.id then Some(m) else GetById(r, id))
            && (name in r'.nameIndex <==> name == m.name || name in r.nameIndex)
            && (name in r'.nameIndex ==>
                  r'.nameIndex[name] < |r'.monsters|
                  && r'.monsters[r'.nameIndex[name]] == if name == m.name then m else r.monsters[r.nameIndex[name]])
  {
  }

  /** A removed monster is no longer found by its id, and all others are. */
  lemma RemovedFound(r: Registry, m: Monster, id: nat)
    requires Valid(r) && Known(r, m) && m.id in r.idIndex
    ensures GetById(Removed(r, m), id) == if id == m.id then None else GetById(r, id)
  {
    RemovedShape(r, m);
    RemovedIds(r, m);
    var r', index, last := Removed(r, m), r.idIndex[m.id], |r.monsters| - 1;
    if id in r.idIndex && id != m.id {
      assert r.idIndex[id] != index && r.monsters[r.idIndex[id]].id == id;
      var at := if r.idIndex[id] == last then index else r.idIndex[id];
      assert r'.monsters[at] == r.monsters[r.idIndex[id]];
      assert r'.idIndex[r'.monsters[at].id] == at;
    }
  }

  /** Every registered monster's name is in the name index. */
  ghost predicate NamesComplete(r: Registry) {
    forall i :: 0 <= i < |r.monsters| ==> r.monsters[i].name in r.nameIndex
  }

  /** Removing a monster leaves the name index complete exactly when no other monster has its name,
      or the monster moved into its place does. */
  lemma NameLost(r: Registry, m: Monster)
    requires Valid(r) && NamesComplete(r) && Known(r, m) && m.id in r.idIndex
    ensures var last := |r.monsters| - 1;
            NamesComplete(Removed(r, m)) <==>
              (r.idIndex[m.id] != last && r.monsters[last].name == m.name)
              || forall i :: 0 <= i < |r.monsters| && i != r.idIndex[m.id] ==> r.monsters[i].name != m.name
  {
    var r', index, last := Removed(r, m), r.idIndex[m.id], |r.monsters| - 1;
    RemovedShape(r, m);
    if index == last || r.monsters[last].name != m.name {
      assert m.name !in r'.nameIndex;
      if i :| 0 <= i < |r.monsters| && i != index && r.monsters[i].name == m.name {
        assert r'.monsters[i] == r.monsters[i];
      }
    }
  }

  // ---------------------------------------------------------------- whole runs

  datatype Action = Add(m: Monster) | Remove(m: Monster)

  function Step(r: Registry, a: Action): Registry {
    match a
    case Add(m) => Added(r, m)
    case Remove(m) => Removed(r, m)
  }

  function Run(r: Registry, actions: seq<Action>): Registry
    decreases actions
  {
    if actions == [] then r else Run(Step(r, actions[0]), actions[1..])
  }

  /** New monsters come with fresh ids. */
  ghost predicate Proper(r: Registry, actions: seq<Action>)
    decreases actions
  {
    actions != [] ==>
      (match actions[0] case Add(m) => m.id !in r.idIndex case Remove(m) => Known(r, m))
      && Proper(Step(r, actions[0]), actions[1..])
  }

  /** After any run the lookup by id is a linear search and every name entry is right. */
  lemma {:induction false} RunKeeps(r: Registry, actions: seq<Action>, id: nat, name: string)
    requires Valid(r) && Proper(r, actions)
    ensures var r' := Run(r, actions);
            && Valid(r')
            && GetById(r', id) == (if id == 0 then None else Search(r'.monsters, id))
            && (name in r'.nameIndex ==>
                  r'.nameIndex[name] < |r'.monsters| && r'.monsters[r'.nameIndex[name]].name == name)
    decreases actions
  {
    if actions == [] {
      LookupIsSearch(r, id);
    } else {
      match actions[0] {
        case Add(m) => AddedKeeps(r, m);
        case Remove(m) => RemovedKeeps(r, m);
      }
      RunKeeps(Step(r, actions[0]), actions[1..], id, name);
    }
  }

  // ---------------------------------------------------------------- the game's methods

  class Monsters {
    var monsters: seq<Monster>
    var monstersNameIndex: map<string, nat>
    var monstersIdIndex: map<nat, nat>

    ghost function View(): Registry
      reads this
    {
      Registry(monsters, monstersNameIndex, monstersIdIndex)
    }

    constructor ()
      ensures Valid(View()) && monsters == []
    {
      monsters, monstersNameIndex, monstersIdIndex := [], map[], map[];
    }

    method AddMonster(m: Monster)
      requires Valid(View()) && m.id !in monstersIdIndex
      modifies this
      ensures Valid(View()) && View() == Added(old(View()), m)
    {
      AddedKeeps(View(), m);
      monsters := monsters + [m];
      var index := |monsters| - 1;
      monstersNameIndex := monstersNameIndex[m.name := index];
      monstersIdIndex := monstersIdIndex[m.id := index];
    }

    method RemoveMonster(m: Monster)
      requires Valid(View()) && Known(View(), m)
      modifies this
      ensures Valid(View()) && View() == Removed(old(View()), m)
      ensures multiset(monsters) == multiset(old(monsters)) - multiset{m}
    {
      RemovedKeeps(View(), m);
      RemovedContents(View(), m);
      if m.id in monstersIdIndex {
        var index := monstersIdIndex[m.id];
        monstersNameIndex := monstersNameIndex - {m.name};
        monstersIdIndex := monstersIdIndex - {m.id};
        if index != |monsters| - 1 {
          var back := monsters[|monsters| - 1];
          monsters := monsters[|monsters| - 1 := monsters[index]][index := back];
          monstersNameIndex := monstersNameIndex[back.name := index];
          monstersIdIndex := monstersIdIndex[back.id := index];
        }
        monsters := monsters[..|monsters| - 1];
        assert monsters == Removed(old(View()), m).monsters;
      }
    }

    method GetMonsterByID(id: nat) returns (m: Option<Monster>)
      requires Valid(View())
      ensures m == if id == 0 then None else Search(monsters, id)
    {
      LookupIsSearch(View(), id);
      if id == 0 || id !in monstersIdIndex {
        return None;
      }
      if monstersIdIndex[id] >= |monsters| {
        return None;
      }
      m := Some(monsters[monstersIdIndex[id]]);
    }
  }
}
