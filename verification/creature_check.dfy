/** The creature check scheduler: ten lists, visited in turn, with deferred insertion. */
module CreatureCheck {

  type Creature = nat

  const EVENT_CREATURECOUNT: nat := 10

  /** `check` and `inVector` are the two flags of a creature. An expired creature is one whose
      weak references no longer lock; a queued insertion keeps its creature from expiring. */
  datatype World = World(lists: seq<seq<Creature>>, pending: seq<(nat, Creature)>, index: nat,
                         check: set<Creature>, inVector: set<Creature>,
                         alive: set<Creature>, removed: set<Creature>, expired: set<Creature>)

  // ---------------------------------------------------------------- the steps

  /** `addCreatureCheck`; `list` is the random list of the queued insertion. */
  function Add(w: World, c: Creature, list: nat): World {
    if c in w.removed || c in w.expired then w
    else if c in w.inVector then w.(check := w.check + {c})
    else w.(check := w.check + {c}, inVector := w.inVector + {c}, pending := w.pending + [(list, c)])
  }

  /** `removeCreatureCheck`. */
  function Remove(w: World, c: Creature): World {
    if c in w.inVector then w.(check := w.check - {c}) else w
  }

  /** The dispatcher runs the oldest queued insertion. */
  function Deliver(w: World): World {
    if w.pending == [] || w.pending[0].0 >= |w.lists| then w
    else
      var (list, c) := w.pending[0];
      w.(pending := w.pending[1..], lists := w.lists[list := w.lists[list] + [c]])
  }

  function Keep(list: seq<Creature>, s: set<Creature>): seq<Creature> {
    if list == [] then []
    else (if list[0] in s then [list[0]] else []) + Keep(list[1..], s)
  }

  /** Creatures that think when their list is visited. */
  function Thinkers(w: World): set<Creature> {
    w.check * w.alive - w.expired
  }

  /** The creatures that think in the next visit, in order. */
  function Thoughts(w: World): seq<Creature> {
    if w.index < |w.lists| then Keep(w.lists[w.index], Thinkers(w)) else []
  }

  /** `checkCreatures`. */
  function Tick(w: World): World {
    if w.index >= |w.lists| then w
    else
      var list := w.lists[w.index];
      var dropped := set c | c in list && c !in Thinkers(w) && c !in w.expired;
      w.(lists := w.lists[w.index := Thoughts(w)], inVector := w.inVector - dropped,
         index := (w.index + 1) % EVENT_CREATURECOUNT)
  }

  datatype Action =
    | AddCheck(c: Creature, list: nat)
    | RemoveCheck(c: Creature)
    | DeliverInsertion
    | CheckCreatures
    | Die(c: Creature)
    | MarkRemoved(c: Creature)
    | Expire(c: Creature)

  function Step(w: World, a: Action): World {
    match a
    case AddCheck(c, list) => Add(w, c, list % EVENT_CREATURECOUNT)
    case RemoveCheck(c) => Remove(w, c)
    case DeliverInsertion => Deliver(w)
    case CheckCreatures => Tick(w)
    case Die(c) => w.(alive := w.alive - {c})
    case MarkRemoved(c) => w.(removed := w.removed + {c})
    case Expire(c) => if c in Queued(w.pending) then w else w.(expired := w.expired + {c})
  }

  // ---------------------------------------------------------------- one place for each creature

  function Concat(lists: seq<seq<Creature>>): seq<Creature> {
    if lists == [] then [] else lists[0] + Concat(lists[1..])
  }

  function Queued(pending: seq<(nat, Creature)>): seq<Creature> {
    if pending == [] then [] else [pending[0].1] + Queued(pending[1..])
  }

  /** How often each creature occurs in the lists and in the queued insertions. */
  ghost function Places(w: World): multiset<Creature> {
    multiset(Concat(w.lists)) + multiset(Queued(w.pending))
  }

  ghost predicate Inv(w: World) {
    && |w.lists| == EVENT_CREATURECOUNT && w.index < EVENT_CREATURECOUNT
    && (forall i :: 0 <= i < |w.pending| ==> w.pending[i].0 < EVENT_CREATURECOUNT)
    && (forall c :: Places(w)[c] <= 1)
    && (forall c :: c !in w.expired ==> (c in w.inVector <==> c in Places(w)))
    && (forall c :: c in w.expired ==> c !in Queued(w.pending))
  }

  lemma {:induction false} ConcatUpdate(lists: seq<seq<Creature>>, k: nat, list: seq<Creature>, c: Creature)
    requires k < |lists|
    ensures multiset(Concat(lists[k := list]))[c] + multiset(lists[k])[c]
         == multiset(Concat(lists))[c] + multiset(list)[c]
  {
    var lists' := lists[k := list];
    assert Concat(lists') == lists'[0] + Concat(lists'[1..]);
    if k == 0 {
      assert lists'[1..] == lists[1..];
    } else {
      ConcatUpdate(lists[1..], k - 1, list, c);
      assert lists'[1..] == lists[1..][k - 1 := list] && lists[1..][k - 1] == lists[k];
    }
  }

  lemma {:induction false} QueuedAppend(pending: seq<(nat, Creature)>, e: (nat, Creature))
    ensures Queued(pending + [e]) == Queued(pending) + [e.1]
  {
    if pending == [] {
      assert pending + [e] == [e] && [e][1..] == [];
    } else {
      assert (pending + [e])[1..] == pending[1..] + [e];
      QueuedAppend(pending[1..], e);
    }
  }

  lemma {:induction false} KeepCount(list: seq<Creature>, s: set<Creature>, c: Creature)
    ensures multiset(Keep(list, s))[c] == if c in s then multiset(list)[c] else 0
  {
    if list != [] {
      assert list == [list[0]] + list[1..];
      KeepCount(list[1..], s, c);
    }
  }

  lemma DeliverMoves(w: World, c: Creature)
    requires Inv(w)
    ensures Places(Deliver(w))[c] == Places(w)[c]
    ensures c in Queued(Deliver(w).pending) ==> c in Queued(w.pending)
  {
    if w.pending != [] {
      var (list, d) := w.pending[0];
      ConcatUpdate(w.lists, list, w.lists[list] + [d], c);
      assert multiset(w.lists[list] + [d]) == multiset(w.lists[list]) + multiset{d};
      assert multiset(Queued(w.pending)) == multiset{d} + multiset(Queued(w.pending[1..]));
    }
  }

  lemma DeliverKeeps(w: World)
    requires Inv(w)
    ensures Inv(Deliver(w))
  {
    forall c
      ensures Places(Deliver(w))[c] == Places(w)[c]
      ensures c in Queued(Deliver(w).pending) ==> c in Queued(w.pending)
    {
      DeliverMoves(w, c);
    }
    if w.pending != [] {
      assert forall i :: 0 <= i < |w.pending[1..]| ==> w.pending[1..][i] == w.pending[i + 1];
    }
  }

  lemma QueuedOneMore(pending: seq<(nat, Creature)>, e: (nat, Creature), x: Creature)
    ensures multiset(Queued(pending + [e]))[x] == multiset(Queued(pending))[x] + (if x == e.1 then 1 else 0)
    ensures x in Queued(pending + [e]) <==> x in Queued(pending) || x == e.1
  {
    QueuedAppend(pending, e);
    assert multiset(Queued(pending) + [e.1]) == multiset(Queued(pending)) + multiset{e.1};
  }

  lemma AddKeeps(w: World, c: Creature, list: nat)
    requires Inv(w) && list < EVENT_CREATURECOUNT
    ensures Inv(Add(w, c, list))
  {
    if c !in w.removed && c !in w.expired && c !in w.inVector {
      QueueKeeps(w, Add(w, c, list), c, list);
    }
  }

  lemma QueueKeeps(w: World, w': World, c: Creature, list: nat)
    requires Inv(w) && list < EVENT_CREATURECOUNT && c !in w.expired && c !in w.inVector
    requires w'.lists == w.lists && w'.pending == w.pending + [(list, c)] && w'.index == w.index
    requires w'.inVector == w.inVector + {c} && w'.expired == w.expired
    ensures Inv(w')
  {
    forall x
      ensures Places(w')[x] == Places(w)[x] + (if x == c then 1 else 0)
      ensures x in w.expired ==> x !in Queued(w'.pending)
    {
      QueuedOneMore(w.pending, (list, c), x);
    }
  }

  lemma TickMoves(w: World, c: Creature)
    requires Inv(w)
    ensures Places(Tick(w))[c] + (if c in Thinkers(w) then 0 else multiset(w.lists[w.index])[c]) == Places(w)[c]
  {
    ConcatUpdate(w.lists, w.index, Thoughts(w), c);
    KeepCount(w.lists[w.index], Thinkers(w), c);
  }

  /** The flag is cleared exactly where the creature leaves its list. */
  lemma TickFlag(w: World, c: Creature)
    requires Inv(w) && c !in w.expired
    ensures c in Tick(w).inVector <==> Places(Tick(w))[c] > 0
  {
    var list := w.lists[w.index];
    TickMoves(w, c);
    ListWithin(w.lists, w.index, c);
    assert Places(w)[c] <= 1 && (c in w.inVector <==> Places(w)[c] > 0);
    assert c in list <==> multiset(list)[c] > 0;
  }

  lemma TickKeeps(w: World)
    requires Inv(w)
    ensures Inv(Tick(w))
  {
    var w' := Tick(w);
    forall c
      ensures Places(w')[c] <= 1
    {
      TickMoves(w, c);
    }
    forall c | c !in w'.expired
      ensures c in w'.inVector <==> c in Places(w')
    {
      TickFlag(w, c);
    }
  }

  lemma {:induction false} ListWithin(lists: seq<seq<Creature>>, k: nat, c: Creature)
    requires k < |lists|
    ensures multiset(lists[k])[c] <= multiset(Concat(lists))[c]
  {
    if k > 0 {
      ListWithin(lists[1..], k - 1, c);
    }
  }

  /** Two different lists never both hold a creature that occurs at most once. */
  lemma {:induction false} OneList(lists: seq<seq<Creature>>, i: nat, j: nat, c: Creature)
    requires i < j < |lists|
    ensures multiset(lists[i])[c] + multiset(lists[j])[c] <= multiset(Concat(lists))[c]
  {
    if i == 0 {
      ListWithin(lists[1..], j - 1, c);
    } else {
      OneList(lists[1..], i - 1, j - 1, c);
    }
  }

  lemma StepKeeps(w: World, a: Action)
    requires Inv(w)
    ensures Inv(Step(w, a))
  {
    match a
    case AddCheck(c, list) => AddKeeps(w, c, list % EVENT_CREATURECOUNT);
    case DeliverInsertion => DeliverKeeps(w);
    case CheckCreatures => TickKeeps(w);
    case RemoveCheck(c) =>
    case Die(c) =>
    case MarkRemoved(c) =>
    case Expire(c) =>
  }

  function Run(w: World, actions: seq<Action>): World
    decreases actions
  {
    if actions == [] then w else Run(Step(w, actions[0]), actions[1..])
  }

  /** In every reachable state each creature is in at most one place, and in one exactly when its
      flag says so. */
  lemma {:induction false} RunKeeps(w: World, actions: seq<Action>)
    requires Inv(w)
    ensures Inv(Run(w, actions))
    decreases actions
  {
    if actions != [] {
      StepKeeps(w, actions[0]);
      RunKeeps(Step(w, actions[0]), actions[1..]);
    }
  }

  // ---------------------------------------------------------------- what the three events do

  /** A creature that is there when it is registered is registered and flagged, and is in exactly one place:
      where it was, or in one more insertion at the end of the queue. */
  lemma Registers(w: World, c: Creature, list: nat)
    requires Inv(w) && c !in w.removed && c !in w.expired && list < EVENT_CREATURECOUNT
    ensures var w' := Add(w, c, list);
            && w' == w.(check := w.check + {c}, inVector := w.inVector + {c},
                        pending := if c in Places(w) then w.pending else w.pending + [(list, c)])
            && Places(w')[c] == 1
  {
    if c in w.inVector {
      assert Places(w)[c] == 1;
    } else {
      QueuedOneMore(w.pending, (list, c), c);
      assert Places(w)[c] == 0;
    }
  }

  lemma RegistersNoOther(w: World, c: Creature, list: nat)
    requires c in w.removed || c in w.expired
    ensures Add(w, c, list) == w
  {
  }

  /** A creature that is queued or in a list is registered no more; any other stays as it is. */
  lemma Unregisters(w: World, c: Creature)
    requires Inv(w) && c !in w.expired
    ensures Remove(w, c) == if c in Places(w) then w.(check := w.check - {c}) else w
  {
  }

  /** The oldest insertion leaves the queue, and its creature is last in its list. */
  lemma Delivers(w: World)
    requires Inv(w) && w.pending != []
    ensures var (list, c) := w.pending[0];
            && list < EVENT_CREATURECOUNT
            && Deliver(w) == w.(pending := w.pending[1..], lists := w.lists[list := w.lists[list] + [c]])
  {
  }

  /** Who thinks in a visit: those in the list whose turn it is that are registered, alive and still exist. */
  lemma WhoThinks(w: World, c: Creature)
    requires Inv(w)
    ensures c in Thoughts(w) <==> c in w.lists[w.index] && c in w.check && c in w.alive && c !in w.expired
  {
    KeepCount(w.lists[w.index], Thinkers(w), c);
    InSeq(w.lists[w.index], c);
    InSeq(Thoughts(w), c);
  }

  /** What a visit changes: the list keeps exactly those who think, the others lose their flag if they still
      exist, and the next list is up. */
  lemma Visits(w: World, c: Creature)
    requires Inv(w)
    ensures var w' := Tick(w);
            && w' == w.(lists := w'.lists, inVector := w'.inVector, index := if w.index == 9 then 0 else w.index + 1)
            && w'.lists == w.lists[w.index := Thoughts(w)]
            && (c in w'.inVector <==>
                  c in w.inVector
                  && !(c in w.lists[w.index] && c !in w.expired && !(c in w.check && c in w.alive)))
  {
  }

  /** What happens to a creature by itself; one that is queued cannot expire. */
  lemma Happens(w: World, c: Creature)
    ensures Step(w, Die(c)) == w.(alive := w.alive - {c})
    ensures Step(w, MarkRemoved(c)) == w.(removed := w.removed + {c})
    ensures Step(w, Expire(c)) == if exists i :: 0 <= i < |w.pending| && w.pending[i].1 == c then w
                                  else w.(expired := w.expired + {c})
  {
    QueuedIff(w.pending, c);
  }

  lemma {:induction false} QueuedIff(pending: seq<(nat, Creature)>, c: Creature)
    ensures c in Queued(pending) <==> exists i :: 0 <= i < |pending| && pending[i].1 == c
  {
    if pending != [] {
      QueuedIff(pending[1..], c);
      if i :| 0 <= i < |pending[1..]| && pending[1..][i].1 == c {
        assert pending[i + 1].1 == c;
      }
      if i :| 0 <= i < |pending| && pending[i].1 == c {
        assert i > 0 ==> pending[1..][i - 1].1 == c;
      }
    }
  }

  /** A visit keeps the order of those that stay. */
  lemma {:induction false} KeepConcat(a: seq<Creature>, b: seq<Creature>, s: set<Creature>)
    ensures Keep(a + b, s) == Keep(a, s) + Keep(b, s)
    decreases |a|
  {
    if a == [] {
      assert a + b == b;
    } else {
      var first := if a[0] in s then [a[0]] else [];
      assert (a + b)[1..] == a[1..] + b;
      KeepConcat(a[1..], b, s);
      assert first + (Keep(a[1..], s) + Keep(b, s)) == first + Keep(a[1..], s) + Keep(b, s);
    }
  }

  // ---------------------------------------------------------------- thinking once a round

  function Ticks(actions: seq<Action>): nat {
    if actions == [] then 0 else (if actions[0].CheckCreatures? then 1 else 0) + Ticks(actions[1..])
  }

  /** How often creature `c` thinks in a run. */
  ghost function ThinkCount(w: World, actions: seq<Action>, c: Creature): nat
    decreases actions
  {
    if actions == [] then 0
    else (if actions[0].CheckCreatures? then multiset(Thoughts(w))[c] else 0)
         + ThinkCount(Step(w, actions[0]), actions[1..], c)
  }

  /** The creature stays registered and alive from the first state of the run to the last. */
  ghost predicate Steady(w: World, actions: seq<Action>, c: Creature)
    decreases actions
  {
    c in Thinkers(w) && (actions != [] ==> Steady(Step(w, actions[0]), actions[1..], c))
  }

  /** The creature is not registered in any state of the run. */
  ghost predicate Unregistered(w: World, actions: seq<Action>, c: Creature)
    decreases actions
  {
    c !in w.check && c !in w.expired
    && (actions != [] ==> Unregistered(Step(w, actions[0]), actions[1..], c))
  }

  /** Visits before list `k` comes up. */
  function Distance(index: nat, k: nat): nat {
    (k + EVENT_CREATURECOUNT - index % EVENT_CREATURECOUNT) % EVENT_CREATURECOUNT
  }

  lemma DistanceIs(index: nat, k: nat)
    requires index < EVENT_CREATURECOUNT && k < EVENT_CREATURECOUNT
    ensures Distance(index, k) == if index <= k then k - index else k + EVENT_CREATURECOUNT - index
  {
    assert index % EVENT_CREATURECOUNT == index;
  }

  lemma DistanceStep(index: nat, k: nat)
    requires index < EVENT_CREATURECOUNT && k < EVENT_CREATURECOUNT
    ensures Distance(index, k) < EVENT_CREATURECOUNT && (Distance(index, k) == 0 <==> k == index)
    ensures Distance((index + 1) % EVENT_CREATURECOUNT, k) == if k == index then 9 else Distance(index, k) - 1
  {
    var next := (index + 1) % EVENT_CREATURECOUNT;
    assert next == if index == 9 then 0 else index + 1;
    DistanceIs(index, k);
    DistanceIs(next, k);
  }

  /** A creature in list `k` is there once, and in no other list. */
  lemma OnlyHere(w: World, k: nat, j: nat, c: Creature)
    requires Inv(w) && k < EVENT_CREATURECOUNT && j < EVENT_CREATURECOUNT && c in w.lists[k]
    ensures multiset(w.lists[j])[c] == if j == k then 1 else 0
  {
    assert multiset(Concat(w.lists))[c] <= Places(w)[c] <= 1;
    assert c in multiset(w.lists[k]);
    ListWithin(w.lists, k, c);
    if k < j {
      OneList(w.lists, k, j, c);
    } else if j < k {
      OneList(w.lists, j, k, c);
    }
  }

  lemma InSeq(list: seq<Creature>, c: Creature)
    ensures c in list <==> multiset(list)[c] > 0
  {
    assert c in list <==> c in multiset(list);
  }

  /** In list `k`, with every other visit not seeing it. */
  lemma TickCount(w: World, k: nat, c: Creature)
    requires Inv(w) && k < EVENT_CREATURECOUNT && c in w.lists[k]
    ensures multiset(Thoughts(w))[c] == if k == w.index && c in Thinkers(w) then 1 else 0
    ensures k != w.index ==> c !in w.lists[w.index] && c in Tick(w).lists[k]
    ensures k == w.index && c in Thinkers(w) ==> c in Tick(w).lists[k]
  {
    OnlyHere(w, k, w.index, c);
    KeepCount(w.lists[w.index], Thinkers(w), c);
    InSeq(w.lists[w.index], c);
    InSeq(Thoughts(w), c);
  }

  lemma StaysInList(w: World, a: Action, k: nat, c: Creature)
    requires Inv(w) && k < EVENT_CREATURECOUNT && c in w.lists[k] && !a.CheckCreatures?
    ensures c in Step(w, a).lists[k] && Step(w, a).index == w.index
  {
  }

  /** A registered creature in list `k` stays there, and a visit makes it think when its turn has come. */
  lemma TurnStep(w: World, a: Action, k: nat, c: Creature)
    requires Inv(w) && k < EVENT_CREATURECOUNT && c in w.lists[k] && c in Thinkers(w)
    ensures Inv(Step(w, a)) && c in Step(w, a).lists[k]
    ensures var d, d' := Distance(w.index, k), Distance(Step(w, a).index, k);
            d < EVENT_CREATURECOUNT
            && if a.CheckCreatures? then
                 multiset(Thoughts(w))[c] == (if d == 0 then 1 else 0) && d' == (if d == 0 then 9 else d - 1)
               else d' == d
  {
    StepKeeps(w, a);
    DistanceStep(w.index, k);
    if a.CheckCreatures? {
      TickCount(w, k, c);
    } else {
      StaysInList(w, a, k, c);
    }
  }

  /** A creature in list `k` that stays registered and alive thinks for the first time when that
      list is visited, and not again within the round. */
  lemma {:induction false} ThinksOnceARound(w: World, actions: seq<Action>, k: nat, c: Creature)
    requires Inv(w) && k < EVENT_CREATURECOUNT && c in w.lists[k]
    requires Steady(w, actions, c) && Ticks(actions) <= EVENT_CREATURECOUNT
    ensures ThinkCount(w, actions, c) == if Ticks(actions) > Distance(w.index, k) then 1 else 0
    decreases actions
  {
    if actions != [] {
      TurnStep(w, actions[0], k, c);
      ThinksOnceARound(Step(w, actions[0]), actions[1..], k, c);
    }
  }

  /** Exactly once in any ten consecutive visits, whatever happens between them. */
  lemma ThinksOnceInTen(w: World, actions: seq<Action>, k: nat, c: Creature)
    requires Inv(w) && k < EVENT_CREATURECOUNT && c in w.lists[k]
    requires Steady(w, actions, c) && Ticks(actions) == EVENT_CREATURECOUNT
    ensures ThinkCount(w, actions, c) == 1
  {
    ThinksOnceARound(w, actions, k, c);
  }

  /** Insertions that the dispatcher is asked to run. */
  function Deliveries(actions: seq<Action>): nat {
    if actions == [] then 0 else (if actions[0].DeliverInsertion? then 1 else 0) + Deliveries(actions[1..])
  }

  /** A queued insertion moves up with each delivery and arrives with its own. Until then its creature
      does not think. */
  lemma QueueStep(w: World, a: Action, i: nat, list: nat, c: Creature)
    requires Inv(w) && i < |w.pending| && w.pending[i] == (list, c)
    ensures var w' := Step(w, a);
            && Inv(w') && list < EVENT_CREATURECOUNT && multiset(Thoughts(w))[c] == 0
            && (if !a.DeliverInsertion? then i < |w'.pending| && w'.pending[i] == (list, c)
                else if i > 0 then i - 1 < |w'.pending| && w'.pending[i - 1] == (list, c)
                else c in w'.lists[list])
  {
    StepKeeps(w, a);
    QueuedIsUnseen(w, i, list, c);
    QueueMoves(w, a, i, list, c);
  }

  lemma QueueMoves(w: World, a: Action, i: nat, list: nat, c: Creature)
    requires i < |w.pending| && w.pending[i] == (list, c) && w.pending[0].0 < |w.lists| && list < |w.lists|
    ensures var w' := Step(w, a);
            if !a.DeliverInsertion? then i < |w'.pending| && w'.pending[i] == (list, c)
            else if i > 0 then i - 1 < |w'.pending| && w'.pending[i - 1] == (list, c)
            else list < |w'.lists| && c in w'.lists[list]
  {
  }

  lemma QueuedIsUnseen(w: World, i: nat, list: nat, c: Creature)
    requires Inv(w) && i < |w.pending| && w.pending[i] == (list, c)
    ensures multiset(Thoughts(w))[c] == 0
  {
    QueuedAt(w.pending, i);
    assert Places(w)[c] <= 1;
    ListWithin(w.lists, w.index, c);
    KeepCount(w.lists[w.index], Thinkers(w), c);
  }

  lemma {:induction false} QueuedAt(pending: seq<(nat, Creature)>, i: nat)
    requires i < |pending|
    ensures multiset(Queued(pending))[pending[i].1] >= 1
  {
    if i > 0 {
      QueuedAt(pending[1..], i - 1);
    }
  }

  lemma {:induction false} InsertionArrives(w: World, actions: seq<Action>, i: nat, list: nat, c: Creature)
    requires Inv(w) && i < |w.pending| && w.pending[i] == (list, c) && Steady(w, actions, c)
    ensures Deliveries(actions) <= i ==> ThinkCount(w, actions, c) == 0
    ensures Deliveries(actions) > i ==>
              list < EVENT_CREATURECOUNT && Inv(Run(w, actions)) && c in Run(w, actions).lists[list]
    decreases actions
  {
    if actions != [] {
      var a := actions[0];
      QueueStep(w, a, i, list, c);
      if !a.DeliverInsertion? {
        InsertionArrives(Step(w, a), actions[1..], i, list, c);
      } else if i > 0 {
        InsertionArrives(Step(w, a), actions[1..], i - 1, list, c);
      } else {
        StaysSteady(Step(w, a), actions[1..], list, c);
      }
    }
  }

  lemma {:induction false} StaysSteady(w: World, actions: seq<Action>, k: nat, c: Creature)
    requires Inv(w) && k < EVENT_CREATURECOUNT && c in w.lists[k] && Steady(w, actions, c)
    ensures Inv(Run(w, actions)) && c in Run(w, actions).lists[k]
    decreases actions
  {
    if actions != [] {
      TurnStep(w, actions[0], k, c);
      StaysSteady(Step(w, actions[0]), actions[1..], k, c);
    }
  }

  lemma {:induction false} SteadySplits(w: World, a: seq<Action>, b: seq<Action>, c: Creature)
    requires Steady(w, a + b, c)
    ensures Steady(w, a, c) && Steady(Run(w, a), b, c)
    decreases a
  {
    if a == [] {
      assert a + b == b;
    } else {
      assert (a + b)[0] == a[0] && (a + b)[1..] == a[1..] + b;
      SteadySplits(Step(w, a[0]), a[1..], b, c);
    }
  }

  /** From registration on, as one run: a creature that is in no list yet and stays registered and alive
      does not think before its insertion has been delivered; then it is in its list, and thinks
      exactly once in any ten visits. */
  lemma RegisteredThinks(w: World, c: Creature, list: nat, before: seq<Action>, after: seq<Action>)
    requires Inv(w) && c !in w.removed && c !in w.expired && c !in w.inVector
    requires Steady(Step(w, AddCheck(c, list)), before + after, c) && Ticks(after) == EVENT_CREATURECOUNT
    ensures var w1 := Step(w, AddCheck(c, list));
            && (Deliveries(before) <= |w.pending| ==> ThinkCount(w1, before, c) == 0)
            && (Deliveries(before) > |w.pending| ==>
                  var w2 := Run(w1, before);
                  |w2.lists| == EVENT_CREATURECOUNT && c in w2.lists[list % EVENT_CREATURECOUNT]
                  && ThinkCount(w2, after, c) == 1)
  {
    var k, w1 := list % EVENT_CREATURECOUNT, Step(w, AddCheck(c, list));
    StepKeeps(w, AddCheck(c, list));
    Registers(w, c, k);
    SteadySplits(w1, before, after, c);
    InsertionArrives(w1, before, |w.pending|, k, c);
    if Deliveries(before) > |w.pending| {
      ThinksOnceInTen(Run(w1, before), after, k, c);
    }
  }

  lemma ForgottenStep(w: World, a: Action, k: nat, c: Creature)
    requires Inv(w) && k < EVENT_CREATURECOUNT && c in w.lists[k] && c !in w.check && c !in w.expired
    ensures var w' := Step(w, a);
            && Inv(w')
            && (a.CheckCreatures? ==> multiset(Thoughts(w))[c] == 0)
            && (if a.CheckCreatures? && k == w.index then c !in w'.inVector && Distance(w.index, k) == 0
                else c in w'.lists[k]
                     && Distance(w'.index, k) == Distance(w.index, k) - (if a.CheckCreatures? then 1 else 0))
  {
    StepKeeps(w, a);
    DistanceStep(w.index, k);
    if a.CheckCreatures? {
      TickCount(w, k, c);
      if k == w.index {
        DroppedHere(w, k, c);
      }
    } else {
      StaysInList(w, a, k, c);
    }
  }

  /** A creature that is unregistered never thinks, and its list forgets it when it is visited. */
  lemma {:induction false} ForgottenInARound(w: World, actions: seq<Action>, k: nat, c: Creature)
    requires Inv(w) && k < EVENT_CREATURECOUNT && c in w.lists[k] && Unregistered(w, actions, c)
    ensures ThinkCount(w, actions, c) == 0
    ensures Ticks(actions) > Distance(w.index, k) ==>
              c !in Places(Run(w, actions)) && c !in Run(w, actions).inVector
    decreases actions
  {
    if actions != [] {
      var a, w' := actions[0], Step(w, actions[0]);
      ForgottenStep(w, a, k, c);
      if a.CheckCreatures? && k == w.index {
        StaysGone(w', actions[1..], c);
      } else {
        ForgottenInARound(w', actions[1..], k, c);
      }
    }
  }

  lemma DroppedHere(w: World, k: nat, c: Creature)
    requires Inv(w) && k == w.index && c in w.lists[k] && c !in Thinkers(w) && c !in w.expired
    ensures c !in Tick(w).inVector && c !in Places(Tick(w))
  {
    TickKeeps(w);
  }

  lemma {:induction false} StaysGone(w: World, actions: seq<Action>, c: Creature)
    requires Inv(w) && c !in w.inVector && Unregistered(w, actions, c)
    ensures ThinkCount(w, actions, c) == 0
    ensures c !in Places(Run(w, actions)) && c !in Run(w, actions).inVector
    decreases actions
  {
    if actions != [] {
      var a, w' := actions[0], Step(w, actions[0]);
      StepKeeps(w, a);
      if a.CheckCreatures? {
        KeepCount(w.lists[w.index], Thinkers(w), c);
      }
      StaysGone(w', actions[1..], c);
    }
  }

  // ---------------------------------------------------------------- the game's methods

  class Scheduler {
    var checkCreatureLists: seq<seq<Creature>>
    var dispatcher: seq<(nat, Creature)>
    var index: nat
    var creatureCheck: set<Creature>
    var inCheckCreaturesVector: set<Creature>
    var alive: set<Creature>
    var removed: set<Creature>
    var expired: set<Creature>

    ghost function View(): World
      reads this
    {
      World(checkCreatureLists, dispatcher, index, creatureCheck, inCheckCreaturesVector, alive, removed, expired)
    }

    constructor (creatures: set<Creature>)
      ensures Inv(View())
    {
      checkCreatureLists := [[], [], [], [], [], [], [], [], [], []];
      dispatcher, index := [], 0;
      creatureCheck, inCheckCreaturesVector, alive, removed, expired := {}, {}, creatures, {}, {};
    }

    method AddCreatureCheck(c: Creature, list: nat)
      requires Inv(View()) && list < EVENT_CREATURECOUNT && c !in expired
      modifies this
      ensures View() == Add(old(View()), c, list) && Inv(View())
    {
      AddKeeps(View(), c, list);
      if c in removed {
        return;
      }
      creatureCheck := creatureCheck + {c};
      if c in inCheckCreaturesVector {
        return;
      }
      inCheckCreaturesVector := inCheckCreaturesVector + {c};
      dispatcher := dispatcher + [(list, c)];
    }

    method RemoveCreatureCheck(c: Creature)
      requires Inv(View())
      modifies this`creatureCheck
      ensures View() == Remove(old(View()), c) && Inv(View())
    {
      if c in inCheckCreaturesVector {
        creatureCheck := creatureCheck - {c};
      }
    }

    method DeliverInsertion()
      requires Inv(View()) && dispatcher != []
      modifies this
      ensures View() == Deliver(old(View())) && Inv(View())
    {
      DeliverKeeps(View());
      var (list, c) := dispatcher[0];
      dispatcher := dispatcher[1..];
      checkCreatureLists := checkCreatureLists[list := checkCreatureLists[list] + [c]];
    }

    /** The predicate that `erase_if` applies to one list, in order. */
    method VisitList(list: seq<Creature>) returns (kept: seq<Creature>)
      modifies this`inCheckCreaturesVector
      ensures kept == Keep(list, Thinkers(old(View())))
      ensures inCheckCreaturesVector
           == old(inCheckCreaturesVector) - (set c | c in list && c !in Thinkers(old(View())) && c !in expired)
    {
      ghost var thinkers := Thinkers(View());
      kept := [];
      for i := 0 to |list|
        invariant kept + Keep(list[i..], thinkers) == Keep(list, thinkers)
        invariant forall c :: c in inCheckCreaturesVector <==>
                    c in old(inCheckCreaturesVector) && !(c in list[..i] && c !in thinkers && c !in expired)
      {
        var c := list[i];
        assert list[i..][0] == c && list[i..][1..] == list[i + 1..];
        assert list[..i + 1] == list[..i] + [c];
        if c !in expired && c in creatureCheck && c in alive {
          kept := kept + [c];
        } else if c !in expired {
          inCheckCreaturesVector := inCheckCreaturesVector - {c};
        }
      }
      assert list[|list|..] == [] && list[..|list|] == list;
    }

    /** One visit; returns the creatures that thought, in order. */
    method CheckCreatures() returns (thought: seq<Creature>)
      requires Inv(View())
      modifies this
      ensures View() == Tick(old(View())) && Inv(View())
      ensures thought == Thoughts(old(View()))
    {
      TickKeeps(View());
      thought := VisitList(checkCreatureLists[index]);
      checkCreatureLists := checkCreatureLists[index := thought];
      index := (index + 1) % EVENT_CREATURECOUNT;
    }
  }
}
