/** The two-party trade handshake. */
module Trade {
  import opened Basics

  type Player = nat
  type Item = nat

  datatype TradeState = NoTrade | Initiated | Accepted | Acknowledged | Transferring

  datatype Trader = Trader(state: TradeState, partner: Option<Player>, item: Option<Item>)

  const IDLE := Trader(NoTrade, None, None)

  /** `holds` relates a container to everything inside it, at any depth. */
  datatype World = World(traders: map<Player, Trader>, tradeItems: map<Item, Player>,
                         owner: map<Item, Player>, holds: set<(Item, Item)>)

  // ---------------------------------------------------------------- the steps

  predicate Clashes(holds: set<(Item, Item)>, item: Item, other: Item) {
    other == item || (other, item) in holds || (item, other) in holds
  }

  /** The item is being traded already, or holds or lies in an item that is. */
  predicate Conflicts(w: World, item: Item) {
    exists other :: other in w.tradeItems && Clashes(w.holds, item, other)
  }

  /** `internalStartTrade`. */
  function Start(w: World, p: Player, q: Player, item: Item): World
    requires p in w.traders && q in w.traders
  {
    var me, other := w.traders[p], w.traders[q];
    if me.state != NoTrade && !(me.state == Acknowledged && me.partner == Some(q)) then w
    else if other.state != NoTrade && other.partner != Some(p) then w
    else
      var traders := w.traders[p := Trader(Initiated, Some(q), Some(item))];
      World(if other.state == NoTrade then traders[q := traders[q].(state := Acknowledged, partner := Some(p))]
            else traders,
            w.tradeItems[item := p], w.owner, w.holds)
  }

  /** `playerRequestTrade`; `allowed` stands for distance, sight, item and event checks. */
  function Request(w: World, p: Player, q: Player, item: Item, allowed: bool): World {
    if p !in w.traders || q !in w.traders || p == q || !allowed || Conflicts(w, item) then w
    else Start(w, p, q, item)
  }

  function Forget(tradeItems: map<Item, Player>, item: Option<Item>): map<Item, Player> {
    if item.Some? then tradeItems - {item.value} else tradeItems
  }

  /** Both sides back to no trade, their items no longer on offer. */
  function Reset(w: World, p: Player): World
    requires p in w.traders
  {
    var me := w.traders[p];
    var alone := World(w.traders[p := IDLE], Forget(w.tradeItems, me.item), w.owner, w.holds);
    if me.partner.Some? && me.partner.value in w.traders then
      var q := me.partner.value;
      World(alone.traders[q := IDLE], Forget(alone.tradeItems, w.traders[q].item), w.owner, w.holds)
    else alone
  }

  /** `internalCloseTrade`. */
  function Close(w: World, p: Player): World {
    if p !in w.traders then w
    else
      var me := w.traders[p];
      if me.state == Transferring || (me.partner.Some? && me.partner.value in w.traders
                                      && w.traders[me.partner.value].state == Transferring) then w
      else Reset(w, p)
  }

  /** What the event handlers and the container queries of an acceptance answer. */
  datatype Answers = Answers(inSight: bool, events: bool, canAdd: bool, canRemove: bool, move1: bool, move2: bool)

  /** Ownership after an exchange; the result of the second move is not looked at. */
  function Exchange(owner: map<Item, Player>, p: Player, q: Player, item1: Option<Item>, item2: Option<Item>,
                    a: Answers): map<Item, Player>
  {
    if item1.Some? && item2.Some? && a.canAdd && a.canRemove && a.move1 then
      var first := owner[item1.value := q];
      if a.move2 then first[item2.value := p] else first
    else owner
  }

  /** `playerAcceptTrade`. */
  function Accept(w: World, p: Player, a: Answers): World {
    if p !in w.traders then w
    else
      var me := w.traders[p];
      if !(me.state == Acknowledged || me.state == Initiated) then w
      else if me.partner == None || me.partner.value !in w.traders || !a.inSight then w
      else
        var q := me.partner.value;
        var accepted := w.(traders := w.traders[p := me.(state := Accepted)]);
        if accepted.traders[q].state != Accepted then accepted
        else if !a.events then Close(accepted, p)
        else Reset(accepted.(owner := Exchange(w.owner, p, q, me.item, accepted.traders[q].item, a)), p)
  }

  // ---------------------------------------------------------------- moving items

  /** The item and everything in it. */
  function Inside(holds: set<(Item, Item)>, m: Item): set<Item> {
    {m} + set pair | pair in holds && pair.0 == m :: pair.1
  }

  /** The container that an item is put into, and everything around that. */
  function Around(holds: set<(Item, Item)>, to: Option<Item>): set<Item> {
    if to == None then {} else {to.value} + set pair | pair in holds && pair.1 == to.value :: pair.0
  }

  /** An item leaves what is around it with everything in it, and enters container `to`, or a slot or
      the ground. */
  function Moved(holds: set<(Item, Item)>, m: Item, to: Option<Item>): set<(Item, Item)> {
    (set pair | pair in holds && (pair.1 in Inside(holds, m) ==> pair.0 in Inside(holds, m)))
    + set a, b | a in Around(holds, to) && b in Inside(holds, m) :: (a, b)
  }

  /** Nothing is put into itself. */
  predicate Movable(holds: set<(Item, Item)>, m: Item, to: Option<Item>) {
    to.Some? ==> to.value !in Inside(holds, m)
  }

  /** When `m` is taken from container `from`, or from a slot or the ground: it is the offer `x`, or lies
      in it, or it holds it, or `from` holds `x` inside something else. */
  predicate Leaves(holds: set<(Item, Item)>, m: Item, from: Option<Item>, x: Item) {
    x == m || (x, m) in holds || (m, x) in holds
    || (from.Some? && (from.value, x) in holds
        && exists pair :: pair in holds && pair.0 == from.value && (pair.1, x) in holds)
  }

  /** When `m` has been put into a container: it is the offer `x`, or lies in it now. */
  predicate Enters(holds: set<(Item, Item)>, m: Item, to: Option<Item>, x: Item) {
    to.Some? && (x == m || (x, m) in holds)
  }

  /** The offers that notice `m` leaving, and those that notice it put in. */
  function Disturbed(tradeItems: map<Item, Player>, holds: set<(Item, Item)>, m: Item, from: Option<Item>): set<Item> {
    set x | x in tradeItems && Leaves(holds, m, from, x)
  }

  function Filled(tradeItems: map<Item, Player>, holds: set<(Item, Item)>, m: Item, to: Option<Item>): set<Item> {
    set x | x in tradeItems && Enters(holds, m, to, x)
  }

  predicate Offers(w: World, p: Player) {
    p in w.traders && w.traders[p].item.Some?
  }

  /** A notified player closes the trade when the own offer is one of these items. */
  function CheckState(w: World, p: Player, hit: set<Item>): World {
    if Offers(w, p) && w.traders[p].item.value in hit then Close(w, p) else w
  }

  /** All the players who are notified, in order. */
  function Notify(w: World, players: seq<Player>, hit: set<Item>): World
    decreases players
  {
    if players == [] then w else Notify(CheckState(w, players[0], hit), players[1..], hit)
  }

  /** A move of an item, of which players `outs` are notified when it leaves its place and players
      `ins` when it is put into a container. */
  function AfterMove(w: World, m: Item, from: Option<Item>, to: Option<Item>, outs: seq<Player>, ins: seq<Player>)
    : World
  {
    if !Movable(w.holds, m, to) then w
    else
      var w1 := Notify(w, outs, Disturbed(w.tradeItems, w.holds, m, from));
      var w2 := w1.(holds := Moved(w.holds, m, to));
      Notify(w2, ins, Filled(w2.tradeItems, w2.holds, m, to))
  }

  datatype Action =
    | RequestTrade(p: Player, q: Player, item: Item, allowed: bool)
    | AcceptTrade(p: Player, answers: Answers)
    | CloseTrade(p: Player)
    | Move(m: Item, from: Option<Item>, to: Option<Item>, outs: seq<Player>, ins: seq<Player>)

  function Step(w: World, a: Action): World {
    match a
    case RequestTrade(p, q, item, allowed) => Request(w, p, q, item, allowed)
    case AcceptTrade(p, answers) => Accept(w, p, answers)
    case CloseTrade(p) => Close(w, p)
    case Move(m, from, to, outs, ins) => AfterMove(w, m, from, to, outs, ins)
  }

  // ---------------------------------------------------------------- the invariant

  ghost predicate TraderInv(w: World, p: Player)
    requires p in w.traders
  {
    var t := w.traders[p];
    && t.state != Transferring
    && (t.state == NoTrade <==> t.partner == None)
    && (t.state == NoTrade ==> t.item == None)
    && (t.state == Initiated ==> t.item.Some?)
    && (t.state == Acknowledged ==> t.item == None)
    && (t.partner.Some? ==>
          var q := t.partner.value;
          && q != p && q in w.traders && w.traders[q].partner == Some(p)
          && !(t.state == Accepted && w.traders[q].state == Accepted)
          && (t.item.Some? || w.traders[q].item.Some?))
  }

  /** The registry lists exactly what is on offer. */
  ghost predicate Listed(w: World) {
    && (forall i :: i in w.tradeItems ==>
          w.tradeItems[i] in w.traders && w.traders[w.tradeItems[i]].item == Some(i))
    && (forall p :: p in w.traders && w.traders[p].item.Some? ==>
          w.traders[p].item.value in w.tradeItems && w.tradeItems[w.traders[p].item.value] == p)
  }

  /** Nothing on offer holds anything on offer. */
  ghost predicate Apart(w: World) {
    forall i, j :: i in w.tradeItems && j in w.tradeItems && i != j ==> (i, j) !in w.holds
  }

  ghost predicate Sound(w: World) {
    (forall p :: p in w.traders ==> TraderInv(w, p)) && Listed(w)
  }

  ghost predicate Inv(w: World) {
    Sound(w) && Apart(w)
  }

  ghost predicate Keeps(w: World, w': World) {
    Sound(w') && (Apart(w) ==> Apart(w'))
  }

  /** A start that goes through finds either two idle players, or `p` asked by `q` already. */
  predicate Startable(w: World, p: Player, q: Player)
    requires p in w.traders && q in w.traders
  {
    var me, other := w.traders[p], w.traders[q];
    && (me.state == NoTrade || (me.state == Acknowledged && me.partner == Some(q)))
    && (other.state == NoTrade || other.partner == Some(p))
  }

  lemma StartKeepsTraders(w: World, p: Player, q: Player, item: Item)
    requires Sound(w) && p in w.traders && q in w.traders && p != q && Startable(w, p, q)
    ensures forall x :: x in w.traders ==> TraderInv(Start(w, p, q, item), x)
  {
    var w' := Start(w, p, q, item);
    assert TraderInv(w, p) && TraderInv(w, q);
    assert w'.traders.Keys == w.traders.Keys;
    forall x | x in w.traders
      ensures TraderInv(w', x)
    {
      assert TraderInv(w, x);
      if x != p && x != q {
        assert w'.traders[x] == w.traders[x];
        if w.traders[x].partner.Some? {
          var y := w.traders[x].partner.value;
          assert y != p && y != q;
          assert w'.traders[y] == w.traders[y];
        }
      }
    }
  }

  lemma StartKeepsListed(w: World, p: Player, q: Player, item: Item)
    requires Sound(w) && p in w.traders && q in w.traders && p != q && Startable(w, p, q) && item !in w.tradeItems
    ensures Listed(Start(w, p, q, item))
  {
    assert TraderInv(w, p) && TraderInv(w, q);
    ListedOneMore(w, Start(w, p, q, item), p, item);
  }

  lemma ListedOneMore(w: World, w': World, p: Player, item: Item)
    requires Listed(w) && p in w.traders && w.traders[p].item == None && item !in w.tradeItems
    requires w'.traders.Keys == w.traders.Keys && w'.tradeItems == w.tradeItems[item := p]
    requires forall x :: x in w.traders ==> w'.traders[x].item == if x == p then Some(item) else w.traders[x].item
    ensures Listed(w')
  {
    forall i | i in w'.tradeItems
      ensures w'.tradeItems[i] in w'.traders && w'.traders[w'.tradeItems[i]].item == Some(i)
    {
      if i != item {
        assert i in w.tradeItems && w'.tradeItems[i] == w.tradeItems[i] != p;
      }
    }
  }

  lemma StartKeepsApart(w: World, p: Player, q: Player, item: Item)
    requires Apart(w) && p in w.traders && q in w.traders && !Conflicts(w, item)
    ensures Apart(Start(w, p, q, item))
  {
    var w' := Start(w, p, q, item);
    forall i, j | i in w'.tradeItems && j in w'.tradeItems && i != j
      ensures (i, j) !in w'.holds
    {
      assert i != item ==> i in w.tradeItems && !Clashes(w.holds, item, i);
      assert j != item ==> j in w.tradeItems && !Clashes(w.holds, item, j);
    }
  }

  lemma StartKeeps(w: World, p: Player, q: Player, item: Item)
    requires Sound(w) && p in w.traders && q in w.traders && p != q && !Conflicts(w, item)
    ensures Keeps(w, Start(w, p, q, item))
  {
    if Startable(w, p, q) {
      NotListed(w, item);
      StartKeepsSound(w, p, q, item);
      if Apart(w) {
        StartKeepsApart(w, p, q, item);
      }
    } else {
      assert Start(w, p, q, item) == w;
    }
  }

  lemma NotListed(w: World, item: Item)
    requires !Conflicts(w, item)
    ensures item !in w.tradeItems
  {
    assert item in w.tradeItems ==> Clashes(w.holds, item, item);
  }

  lemma StartKeepsSound(w: World, p: Player, q: Player, item: Item)
    requires Sound(w) && p in w.traders && q in w.traders && p != q && Startable(w, p, q) && item !in w.tradeItems
    ensures Sound(Start(w, p, q, item))
  {
    StartKeepsTraders(w, p, q, item);
    StartKeepsListed(w, p, q, item);
    assert Start(w, p, q, item).traders.Keys == w.traders.Keys;
  }

  /** The two sides of a trade, or a single player without partner. */
  ghost predicate Closable(w: World, p: Player) {
    && p in w.traders
    && (forall x :: x in w.traders && x != p && w.traders[p].partner != Some(x) ==> TraderInv(w, x))
    && var t := w.traders[p];
       t.partner.Some? ==> t.partner.value in w.traders && t.partner.value != p
                           && w.traders[t.partner.value].partner == Some(p)
  }

  lemma ResetKeepsTraders(w: World, p: Player)
    requires Closable(w, p)
    ensures forall x :: x in Reset(w, p).traders ==> TraderInv(Reset(w, p), x)
  {
    var w' := Reset(w, p);
    forall x | x in w'.traders
      ensures TraderInv(w', x)
    {
      if x != p && w.traders[p].partner != Some(x) {
        assert TraderInv(w, x);
        assert w.traders[x].partner != Some(p);
      }
    }
  }

  lemma ResetKeeps(w: World, p: Player)
    requires Closable(w, p) && Listed(w)
    ensures Keeps(w, Reset(w, p))
  {
    ResetKeepsTraders(w, p);
    ResetKeepsListed(w, p);
    ResetFewer(w, p);
  }

  lemma ResetKeepsListed(w: World, p: Player)
    requires Closable(w, p) && Listed(w)
    ensures Listed(Reset(w, p))
  {
    var w' := Reset(w, p);
    forall x | x in w'.traders && w'.traders[x].item.Some?
      ensures w'.traders[x].item.value in w'.tradeItems && w'.tradeItems[w'.traders[x].item.value] == x
    {
      assert x != p && w'.traders[x] == w.traders[x];
    }
    forall i | i in w'.tradeItems
      ensures w'.tradeItems[i] in w'.traders && w'.traders[w'.tradeItems[i]].item == Some(i)
    {
      var x := w.tradeItems[i];
      assert w.traders[x].item == Some(i) && w'.tradeItems[i] == x;
      assert x != p && w.traders[p].partner != Some(x);
    }
  }

  lemma ResetFewer(w: World, p: Player)
    requires p in w.traders
    ensures Fewer(w, Reset(w, p)) && Reset(w, p).traders[p] == IDLE
  {
  }

  /** A player accepting, with the partner's state left open. */
  lemma AcceptedIsClosable(w: World, p: Player, owner: map<Item, Player>)
    requires Sound(w) && p in w.traders && w.traders[p].partner.Some?
    ensures var w' := w.(traders := w.traders[p := w.traders[p].(state := Accepted)], owner := owner);
            Closable(w', p) && Listed(w')
  {
    var w' := w.(traders := w.traders[p := w.traders[p].(state := Accepted)], owner := owner);
    assert TraderInv(w, p);
    forall x | x in w'.traders && x != p && w.traders[p].partner != Some(x)
      ensures TraderInv(w', x)
    {
      assert TraderInv(w, x);
      assert w.traders[x].partner != Some(p);
    }
  }

  lemma AcceptKeeps(w: World, p: Player, a: Answers)
    requires Sound(w)
    ensures Keeps(w, Accept(w, p, a))
  {
    if p in w.traders && w.traders[p].partner.Some? {
      var me, q := w.traders[p], w.traders[p].partner.value;
      assert TraderInv(w, p) && TraderInv(w, q);
      if w.traders[q].state == Accepted {
        AcceptedIsClosable(w, p, w.owner);
        ResetKeeps(w.(traders := w.traders[p := me.(state := Accepted)]), p);
        var owner := Exchange(w.owner, p, q, me.item, w.traders[q].item, a);
        AcceptedIsClosable(w, p, owner);
        ResetKeeps(w.(traders := w.traders[p := me.(state := Accepted)], owner := owner), p);
      } else {
        AcceptAlone(w, p);
      }
    }
  }

  /** The first of two partners to accept. */
  lemma AcceptAlone(w: World, p: Player)
    requires Sound(w) && p in w.traders && w.traders[p].partner.Some?
    requires w.traders[w.traders[p].partner.value].state != Accepted
    ensures Sound(w.(traders := w.traders[p := w.traders[p].(state := Accepted)]))
  {
    var q, w' := w.traders[p].partner.value, w.(traders := w.traders[p := w.traders[p].(state := Accepted)]);
    AcceptedIsClosable(w, p, w.owner);
    assert TraderInv(w, p) && TraderInv(w, q);
    assert TraderInv(w', p) && TraderInv(w', q);
  }

  /** A closed trade: everybody is as before or idle, and the closing player is idle. */
  lemma CloseKeeps(w: World, p: Player)
    requires Sound(w)
    ensures Keeps(w, Close(w, p)) && Fewer(w, Close(w, p))
    ensures p in w.traders ==> Close(w, p).traders[p] == IDLE
  {
    if p in w.traders {
      assert TraderInv(w, p);
      assert Closable(w, p);
      ResetKeeps(w, p);
      ResetFewer(w, p);
    }
  }

  /** Some trades are closed, and nothing else has changed. */
  ghost predicate Fewer(w: World, w': World) {
    && w'.traders.Keys == w.traders.Keys && w'.owner == w.owner && w'.holds == w.holds
    && w'.tradeItems.Keys <= w.tradeItems.Keys
    && (forall p :: p in w.traders ==> w'.traders[p] == w.traders[p] || w'.traders[p] == IDLE)
  }

  lemma {:induction false} NotifyKeeps(w: World, players: seq<Player>, hit: set<Item>)
    requires Sound(w)
    ensures Keeps(w, Notify(w, players, hit)) && Fewer(w, Notify(w, players, hit))
    ensures forall p :: p in players ==> Quiet(Notify(w, players, hit), p, hit)
    decreases players
  {
    if players != [] {
      var p, w1, w' := players[0], CheckState(w, players[0], hit), Notify(w, players, hit);
      CloseKeeps(w, p);
      NotifyKeeps(w1, players[1..], hit);
      FewerStill(w, w1, w');
      assert Quiet(w1, p, hit);
    }
  }

  /** What the player has on offer is none of these items. */
  ghost predicate Quiet(w: World, p: Player, hit: set<Item>) {
    Offers(w, p) ==> w.traders[p].item.value !in hit
  }

  lemma FewerStill(w: World, w1: World, w': World)
    requires Fewer(w, w1) && Fewer(w1, w')
    ensures Fewer(w, w')
    ensures forall p, hit :: Quiet(w1, p, hit) ==> Quiet(w', p, hit)
  {
  }

  /** What a move leaves of the trades. */
  lemma MoveKeepsSound(w: World, m: Item, from: Option<Item>, to: Option<Item>, outs: seq<Player>, ins: seq<Player>)
    requires Sound(w)
    ensures var w' := AfterMove(w, m, from, to, outs, ins);
            && Sound(w') && Fewer(w, w'.(holds := w.holds))
            && w'.holds == if Movable(w.holds, m, to) then Moved(w.holds, m, to) else w.holds
  {
    if Movable(w.holds, m, to) {
      var w1, w2 := MoveStages(w, m, from, to, outs, ins);
      FewerTwice(w, w1, w2, AfterMove(w, m, from, to, outs, ins));
    }
  }

  /** No notified player still offers what the move disturbs. */
  lemma MoveCloses(w: World, m: Item, from: Option<Item>, to: Option<Item>, outs: seq<Player>, ins: seq<Player>,
                   p: Player)
    requires Sound(w) && Movable(w.holds, m, to)
    requires Offers(AfterMove(w, m, from, to, outs, ins), p)
    ensures Offers(w, p)
    ensures p in outs ==> !Leaves(w.holds, m, from, w.traders[p].item.value)
    ensures p in ins ==> !Enters(Moved(w.holds, m, to), m, to, w.traders[p].item.value)
    ensures AfterMove(w, m, from, to, outs, ins).traders[p] == w.traders[p]
  {
    var w1, w2 := MoveStages(w, m, from, to, outs, ins);
    var w' := AfterMove(w, m, from, to, outs, ins);
    StillOffered(w, w1, w2, w', m, from, to, p);
  }

  lemma StillOffered(w: World, w1: World, w2: World, w': World, m: Item, from: Option<Item>, to: Option<Item>,
                     p: Player)
    requires Listed(w) && Listed(w2) && Fewer(w, w1) && Fewer(w2, w') && Offers(w', p)
    requires w2 == w1.(holds := Moved(w.holds, m, to))
    ensures Offers(w, p) && w'.traders[p] == w.traders[p]
    ensures Quiet(w1, p, Disturbed(w.tradeItems, w.holds, m, from)) ==>
              !Leaves(w.holds, m, from, w.traders[p].item.value)
    ensures Quiet(w', p, Filled(w2.tradeItems, w2.holds, m, to)) ==>
              !Enters(Moved(w.holds, m, to), m, to, w.traders[p].item.value)
  {
    assert w'.traders[p] == w2.traders[p] && w1.traders[p] == w.traders[p];
  }

  /** The world when the item has left its place, and when it is in the other. */
  lemma MoveStages(w: World, m: Item, from: Option<Item>, to: Option<Item>, outs: seq<Player>, ins: seq<Player>)
    returns (w1: World, w2: World)
    requires Sound(w) && Movable(w.holds, m, to)
    ensures Sound(w1) && Fewer(w, w1) && w2 == w1.(holds := Moved(w.holds, m, to)) && Sound(w2)
    ensures w1 == Notify(w, outs, Disturbed(w.tradeItems, w.holds, m, from))
    ensures Movable(w.holds, m, to) ==>
              AfterMove(w, m, from, to, outs, ins) == Notify(w2, ins, Filled(w2.tradeItems, w2.holds, m, to))
    ensures forall p :: p in outs ==> Quiet(w1, p, Disturbed(w.tradeItems, w.holds, m, from))
    ensures var w' := AfterMove(w, m, from, to, outs, ins);
            && Sound(w') && Fewer(w2, w')
            && forall p :: p in ins ==> Quiet(w', p, Filled(w2.tradeItems, w2.holds, m, to))
  {
    var hit := Disturbed(w.tradeItems, w.holds, m, from);
    NotifyKeeps(w, outs, hit);
    w1 := Notify(w, outs, hit);
    w2 := w1.(holds := Moved(w.holds, m, to));
    Rearranged(w1, w2.holds);
    NotifyKeeps(w2, ins, Filled(w2.tradeItems, w2.holds, m, to));
  }

  lemma Rearranged(w: World, holds: set<(Item, Item)>)
    requires Sound(w)
    ensures Sound(w.(holds := holds))
  {
    assert forall p :: p in w.traders ==> TraderInv(w, p);
  }

  lemma FewerTwice(w: World, w1: World, w2: World, w': World)
    requires Fewer(w, w1) && w2 == w1.(holds := w2.holds) && Fewer(w2, w')
    ensures Fewer(w, w'.(holds := w.holds)) && w'.holds == w2.holds
  {
  }

  /** Every player whose offer a move puts something into is notified. The original notifies only those
      within two fields of the container: see `UntoldMove`. */
  ghost predicate Guarded(w: World, a: Action) {
    a.Move? ==>
      (forall p :: Offers(w, p) && Enters(Moved(w.holds, a.m, a.to), a.m, a.to, w.traders[p].item.value) ==>
         p in a.ins)
  }

  lemma MoveKeepsApart(w: World, m: Item, from: Option<Item>, to: Option<Item>, outs: seq<Player>, ins: seq<Player>)
    requires Inv(w) && Guarded(w, Move(m, from, to, outs, ins))
    ensures Apart(AfterMove(w, m, from, to, outs, ins))
  {
    MoveKeepsSound(w, m, from, to, outs, ins);
    var w' := AfterMove(w, m, from, to, outs, ins);
    forall i, j | i in w'.tradeItems && j in w'.tradeItems && i != j
      ensures (i, j) !in w'.holds
    {
      assert i in w.tradeItems && j in w.tradeItems;
      if Movable(w.holds, m, to) {
        OfferReceives(w, m, from, to, outs, ins, i);
        NewlyHeld(w.holds, m, to, i, j);
      }
    }
  }

  /** Nothing has been put into what is still on offer. */
  lemma OfferReceives(w: World, m: Item, from: Option<Item>, to: Option<Item>, outs: seq<Player>, ins: seq<Player>,
                      i: Item)
    requires Sound(w) && Guarded(w, Move(m, from, to, outs, ins)) && Movable(w.holds, m, to)
    requires i in AfterMove(w, m, from, to, outs, ins).tradeItems
    ensures !Enters(Moved(w.holds, m, to), m, to, i)
  {
    var w' := AfterMove(w, m, from, to, outs, ins);
    MoveKeepsSound(w, m, from, to, outs, ins);
    var p := w'.tradeItems[i];
    assert Offers(w', p) && w'.traders[p].item.value == i;
    MoveCloses(w, m, from, to, outs, ins, p);
  }

  lemma NewlyHeld(holds: set<(Item, Item)>, m: Item, to: Option<Item>, i: Item, j: Item)
    ensures (i, j) in Moved(holds, m, to) && (i, j) !in holds ==> Enters(Moved(holds, m, to), m, to, i)
  {
    MovedPair(holds, m, to, i, j);
    MovedPair(holds, m, to, i, m);
  }

  /** Offer `b` put into offer `a`, with neither side told: one offer holds the other. */
  lemma UntoldMove(w: World, a: Item, b: Item)
    requires Inv(w) && a in w.tradeItems && b in w.tradeItems && Movable(w.holds, b, Some(a))
    ensures !Apart(AfterMove(w, b, None, Some(a), [], []))
  {
    var w' := AfterMove(w, b, None, Some(a), [], []);
    assert a in Around(w.holds, Some(a)) && b in Inside(w.holds, b);
    assert (a, b) in w'.holds && w'.tradeItems == w.tradeItems;
  }

  /** Partners exist and are somebody else. */
  ghost predicate Paired(w: World) {
    forall p :: p in w.traders && w.traders[p].partner.Some? ==>
      w.traders[p].partner.value in w.traders && w.traders[p].partner.value != p
  }

  lemma Partners(w: World)
    requires Sound(w)
    ensures Paired(w)
  {
    assert forall p :: p in w.traders ==> TraderInv(w, p);
  }

  lemma StepKeeps(w: World, a: Action)
    requires Sound(w)
    ensures Sound(Step(w, a)) && (Apart(w) && Guarded(w, a) ==> Apart(Step(w, a)))
  {
    match a
    case RequestTrade(p, q, item, allowed) =>
      if Request(w, p, q, item, allowed) != w {
        StartKeeps(w, p, q, item);
      }
    case AcceptTrade(p, answers) => AcceptKeeps(w, p, answers);
    case CloseTrade(p) => CloseKeeps(w, p);
    case Move(m, from, to, outs, ins) =>
      MoveKeepsSound(w, m, from, to, outs, ins);
      if Apart(w) && Guarded(w, a) {
        MoveKeepsApart(w, m, from, to, outs, ins);
      }
  }

  lemma StepKeepsPlayers(w: World, a: Action)
    requires Sound(w)
    ensures Step(w, a).traders.Keys == w.traders.Keys
  {
    if a.Move? {
      MoveKeepsSound(w, a.m, a.from, a.to, a.outs, a.ins);
    }
  }

  function Run(w: World, actions: seq<Action>): World
    decreases actions
  {
    if actions == [] then w else Run(Step(w, actions[0]), actions[1..])
  }

  ghost predicate GuardedRun(w: World, actions: seq<Action>)
    decreases actions
  {
    actions != [] ==> Guarded(w, actions[0]) && GuardedRun(Step(w, actions[0]), actions[1..])
  }

  /** In every reachable state partners are mutual and distinct, states fit what is on offer, no
      two partners have both accepted, and the registry is exact. Where the traders are told of what is
      put into their offers, no offer ever lies in another. */
  lemma {:induction false} RunKeeps(w: World, actions: seq<Action>)
    requires Sound(w)
    ensures var w' := Run(w, actions);
            && Sound(w') && w'.traders.Keys == w.traders.Keys
            && (Apart(w) && GuardedRun(w, actions) ==> Inv(w'))
            && forall i, p :: i in w'.tradeItems && w'.tradeItems[i] == p <==>
                 p in w'.traders && w'.traders[p].item == Some(i)
    decreases actions
  {
    if actions != [] {
      StepKeeps(w, actions[0]);
      StepKeepsPlayers(w, actions[0]);
      RunKeeps(Step(w, actions[0]), actions[1..]);
    }
  }

  // ---------------------------------------------------------------- what each step changes

  /** A request opens a trade or adds the second offer to one, exactly when the item neither is, holds nor
      lies in anything on offer, and both sides are free or in this trade already. */
  lemma RequestIff(w: World, p: Player, q: Player, item: Item, allowed: bool)
    requires Sound(w) && p in w.traders && q in w.traders
    ensures Request(w, p, q, item, allowed) != w <==>
              && p != q && allowed
              && (forall other :: other in w.tradeItems ==>
                    other != item && (other, item) !in w.holds && (item, other) !in w.holds)
              && (w.traders[p].state == NoTrade
                  || (w.traders[p].state == Acknowledged && w.traders[p].partner == Some(q)))
              && (w.traders[q].state == NoTrade || w.traders[q].partner == Some(p))
  {
    assert Conflicts(w, item) <==> !(forall other :: other in w.tradeItems ==> !Clashes(w.holds, item, other));
    if !Conflicts(w, item) && Startable(w, p, q) {
      NotListed(w, item);
      assert item in Start(w, p, q, item).tradeItems;
    }
  }

  /** The requesting player has initiated, with the item on offer; a partner who was free is asked. */
  lemma RequestOpens(w: World, p: Player, q: Player, item: Item, allowed: bool)
    requires Sound(w) && Request(w, p, q, item, allowed) != w
    ensures var w' := Request(w, p, q, item, allowed);
            && p in w.traders && q in w.traders
            && w'.tradeItems == w.tradeItems[item := p] && w'.owner == w.owner && w'.holds == w.holds
            && w'.traders.Keys == w.traders.Keys && w'.traders[p] == Trader(Initiated, Some(q), Some(item))
            && w'.traders[q] == (if w.traders[q].state == NoTrade then Trader(Acknowledged, Some(p), None)
                                 else w.traders[q])
            && forall x :: x in w.traders && x != p && x != q ==> w'.traders[x] == w.traders[x]
  {
    assert TraderInv(w, p) && TraderInv(w, q);
  }

  /** Two partners are idle and their items no longer on offer; all other trades stay. */
  ghost predicate BothIdle(w: World, w': World, p: Player, q: Player)
    requires p in w.traders && q in w.traders
  {
    && w'.traders == w.traders[p := IDLE][q := IDLE]
    && (forall i :: i in w'.tradeItems <==> i in w.tradeItems && w.tradeItems[i] != p && w.tradeItems[i] != q)
    && (forall i :: i in w'.tradeItems ==> w'.tradeItems[i] == w.tradeItems[i])
  }

  lemma ResetIdles(w: World, p: Player, q: Player)
    requires Listed(w) && p in w.traders && q in w.traders && w.traders[p].partner == Some(q)
    ensures BothIdle(w, Reset(w, p), p, q) && Reset(w, p).owner == w.owner && Reset(w, p).holds == w.holds
  {
  }

  /** Closing ends the trade of both sides, and does nothing for a player without one. */
  lemma CloseIff(w: World, p: Player)
    requires Sound(w) && p in w.traders
    ensures var w' := Close(w, p);
            && w'.owner == w.owner && w'.holds == w.holds
            && (w.traders[p].partner == None ==> w' == w)
            && (w.traders[p].partner.Some? ==>
                  w.traders[p].partner.value in w.traders && BothIdle(w, w', p, w.traders[p].partner.value))
  {
    assert TraderInv(w, p);
    if w.traders[p].partner.Some? {
      assert TraderInv(w, w.traders[p].partner.value);
      ResetIdles(w, p, w.traders[p].partner.value);
    } else {
      assert w.traders[p] == IDLE && w.traders[p := IDLE] == w.traders;
    }
  }

  /** An acceptance by somebody who has been asked or has asked, with the partner in sight. */
  predicate MayAccept(w: World, p: Player, a: Answers)
    requires p in w.traders
  {
    (w.traders[p].state == Acknowledged || w.traders[p].state == Initiated) && a.inSight
  }

  /** The first acceptance only stands; the second ends the trade of both sides, whether the event handlers
      refuse it or not; any other does nothing. What it does to ownership is in `OwnershipChanges`. */
  lemma AcceptEnds(w: World, p: Player, a: Answers)
    requires Sound(w) && p in w.traders
    ensures !MayAccept(w, p, a) ==> Accept(w, p, a) == w
    ensures MayAccept(w, p, a) ==>
              var w', q := Accept(w, p, a), w.traders[p].partner;
              && q.Some? && q.value in w.traders && w'.holds == w.holds
              && (if w.traders[q.value].state == Accepted then BothIdle(w, w', p, q.value)
                  else w' == w.(traders := w.traders[p := w.traders[p].(state := Accepted)]))
  {
    assert TraderInv(w, p);
    if MayAccept(w, p, a) {
      var q := w.traders[p].partner.value;
      assert TraderInv(w, q);
      if w.traders[q].state == Accepted {
        SecondEnds(w, p, q, a);
      }
    }
  }

  lemma SecondEnds(w: World, p: Player, q: Player, a: Answers)
    requires Sound(w) && p in w.traders && MayAccept(w, p, a) && w.traders[p].partner == Some(q)
    requires q in w.traders && q != p && w.traders[q].state == Accepted
    ensures BothIdle(w, Accept(w, p, a), p, q) && Accept(w, p, a).holds == w.holds
  {
    var accepted := w.(traders := w.traders[p := w.traders[p].(state := Accepted)]);
    AcceptedIsClosable(w, p, w.owner);
    ResetIdles(accepted, p, q);
    var owner := Exchange(w.owner, p, q, w.traders[p].item, w.traders[q].item, a);
    AcceptedIsClosable(w, p, owner);
    ResetIdles(accepted.(owner := owner), p, q);
    BackToIdle(w.traders, p, q, w.traders[p].(state := Accepted), w.traders[q]);
    assert w.traders[p := w.traders[p].(state := Accepted)][q := w.traders[q]]
        == w.traders[p := w.traders[p].(state := Accepted)];
  }

  /** Whoever is not told of a disturbed offer, neither oneself nor the partner, keeps the trade. */
  ghost predicate Spared(w: World, players: seq<Player>, hit: set<Item>, p: Player)
    requires p in w.traders
  {
    forall x :: x in players && Offers(w, x) && w.traders[x].item.value in hit ==>
      x != p && w.traders[p].partner != Some(x)
  }

  lemma CheckSpares(w: World, x: Player, hit: set<Item>, p: Player)
    requires Sound(w) && p in w.traders
    requires Offers(w, x) && w.traders[x].item.value in hit ==> x != p && w.traders[p].partner != Some(x)
    ensures p in CheckState(w, x, hit).traders && CheckState(w, x, hit).traders[p] == w.traders[p]
  {
    if Offers(w, x) && w.traders[x].item.value in hit {
      assert TraderInv(w, x) && TraderInv(w, p);
      CloseIff(w, x);
    }
  }

  lemma {:induction false} NotifySpares(w: World, players: seq<Player>, hit: set<Item>, p: Player)
    requires Sound(w) && p in w.traders && Spared(w, players, hit, p)
    ensures p in Notify(w, players, hit).traders && Notify(w, players, hit).traders[p] == w.traders[p]
    decreases players
  {
    if players != [] {
      var x, w1 := players[0], CheckState(w, players[0], hit);
      CheckSpares(w, x, hit, p);
      CloseKeeps(w, x);
      assert forall y :: y in players[1..] ==> y in players;
      NotifySpares(w1, players[1..], hit, p);
    }
  }

  /** An offer that a move has nothing to do with: it is not the moved item, does not hold it before or
      after, does not lie in it, nor inside something else in the container that it is taken from. */
  ghost predicate Remote(holds: set<(Item, Item)>, m: Item, from: Option<Item>, to: Option<Item>, x: Item) {
    && x != m && (x, m) !in holds && (m, x) !in holds
    && (from.Some? && (from.value, x) in holds ==> forall b :: (from.value, b) in holds ==> (b, x) !in holds)
    && (to.Some? ==> (x, m) !in Moved(holds, m, to))
  }

  lemma RemoteIsNotHit(w: World, holds: set<(Item, Item)>, m: Item, from: Option<Item>, to: Option<Item>, x: Item)
    requires Remote(w.holds, m, from, to, x) && holds == Moved(w.holds, m, to)
    ensures x !in Disturbed(w.tradeItems, w.holds, m, from)
    ensures forall tradeItems :: x !in Filled(tradeItems, holds, m, to)
  {
  }

  /** Whoever is told of it, a move leaves alone the trades whose offers it has nothing to do with. */
  lemma MoveSpares(w: World, m: Item, from: Option<Item>, to: Option<Item>, outs: seq<Player>, ins: seq<Player>,
                   p: Player)
    requires Sound(w) && p in w.traders
    requires Offers(w, p) ==> Remote(w.holds, m, from, to, w.traders[p].item.value)
    requires w.traders[p].partner.Some? && Offers(w, w.traders[p].partner.value) ==>
               Remote(w.holds, m, from, to, w.traders[w.traders[p].partner.value].item.value)
    ensures var w' := AfterMove(w, m, from, to, outs, ins); p in w'.traders && w'.traders[p] == w.traders[p]
  {
    if Movable(w.holds, m, to) {
      var w1, w2 := MoveStages(w, m, from, to, outs, ins);
      if Offers(w, p) {
        RemoteIsNotHit(w, w2.holds, m, from, to, w.traders[p].item.value);
      }
      if w.traders[p].partner.Some? && Offers(w, w.traders[p].partner.value) {
        RemoteIsNotHit(w, w2.holds, m, from, to, w.traders[w.traders[p].partner.value].item.value);
      }
      NotifySpares(w, outs, Disturbed(w.tradeItems, w.holds, m, from), p);
      NotifySpares(w2, ins, Filled(w2.tradeItems, w2.holds, m, to), p);
    }
  }

  /** And whoever is told that the own offer is taken, something out of it, what it lies in, or something
      beside it out of the container around both, has no trade afterwards; nor has whoever is told that
      something has been put into the own offer. */
  lemma ToldCloses(w: World, m: Item, from: Option<Item>, to: Option<Item>, outs: seq<Player>, ins: seq<Player>,
                   p: Player)
    requires Sound(w) && Movable(w.holds, m, to) && Offers(w, p)
    requires var x := w.traders[p].item.value;
             || (p in outs && (x == m || (x, m) in w.holds || (m, x) in w.holds
                               || (from.Some? && exists b :: (from.value, b) in w.holds && (b, x) in w.holds
                                                             && (from.value, x) in w.holds)))
             || (p in ins && to.Some? && (x == m || (x, m) in Moved(w.holds, m, to)))
    ensures p in w.traders && p in AfterMove(w, m, from, to, outs, ins).traders
    ensures AfterMove(w, m, from, to, outs, ins).traders[p] == IDLE
  {
    MoveKeepsSound(w, m, from, to, outs, ins);
    var w' := AfterMove(w, m, from, to, outs, ins);
    if Offers(w', p) {
      MoveCloses(w, m, from, to, outs, ins, p);
    }
  }

  // ---------------------------------------------------------------- what an offer holds

  /** Containers: nothing holds itself, what is held further in is held, and two that hold the same
      item hold one another. */
  ghost predicate Nesting(holds: set<(Item, Item)>) {
    && (forall a :: (a, a) !in holds)
    && (forall a, b, c :: (a, b) in holds && (b, c) in holds ==> (a, c) in holds)
    && (forall a, b, c :: (a, c) in holds && (b, c) in holds ==> a == b || (a, b) in holds || (b, a) in holds)
  }

  lemma InsideIff(holds: set<(Item, Item)>, m: Item, x: Item)
    ensures x in Inside(holds, m) <==> Within(holds, m, x)
  {
    assert Within(holds, m, x) && x != m ==> (m, x) in holds;
  }

  lemma AroundIff(holds: set<(Item, Item)>, to: Option<Item>, x: Item)
    ensures x in Around(holds, to) <==> Encloses(holds, to, x)
  {
    assert Encloses(holds, to, x) && x != to.value ==> (x, to.value) in holds;
  }

  lemma MovedPair(holds: set<(Item, Item)>, m: Item, to: Option<Item>, a: Item, b: Item)
    ensures (a, b) in Moved(holds, m, to) <==>
              ((a, b) in holds && (Within(holds, m, b) ==> Within(holds, m, a)))
              || (Encloses(holds, to, a) && Within(holds, m, b))
  {
    InsideIff(holds, m, a);
    InsideIff(holds, m, b);
    AroundIff(holds, to, a);
  }

  predicate Within(holds: set<(Item, Item)>, m: Item, x: Item) {
    x == m || (m, x) in holds
  }

  predicate Encloses(holds: set<(Item, Item)>, to: Option<Item>, x: Item) {
    to.Some? && (x == to.value || (x, to.value) in holds)
  }

  /** A move keeps the nesting of containers. */
  lemma MovedNests(holds: set<(Item, Item)>, m: Item, to: Option<Item>)
    requires Nesting(holds) && Movable(holds, m, to)
    ensures Nesting(Moved(holds, m, to))
  {
    var holds' := Moved(holds, m, to);
    forall a: Item
      ensures (a, a) !in holds'
    {
      MovedPair(holds, m, to, a, a);
      NotBoth(holds, m, to, a);
    }
    forall a: Item, b: Item, c: Item | (a, b) in holds' && (b, c) in holds'
      ensures (a, c) in holds'
    {
      MovedPair(holds, m, to, a, b);
      MovedPair(holds, m, to, b, c);
      MovedPair(holds, m, to, a, c);
      NotBoth(holds, m, to, b);
    }
    forall a: Item, b: Item, c: Item | (a, c) in holds' && (b, c) in holds'
      ensures a == b || (a, b) in holds' || (b, a) in holds'
    {
      MovedPair(holds, m, to, a, c);
      MovedPair(holds, m, to, b, c);
      MovedPair(holds, m, to, a, b);
      MovedPair(holds, m, to, b, a);
      NotBoth(holds, m, to, a);
      NotBoth(holds, m, to, b);
    }
  }

  lemma NotBoth(holds: set<(Item, Item)>, m: Item, to: Option<Item>, x: Item)
    requires Nesting(holds) && Movable(holds, m, to)
    ensures !(Within(holds, m, x) && Encloses(holds, to, x))
  {
    if to.Some? {
      InsideIff(holds, m, to.value);
    }
  }

  function Contents(holds: set<(Item, Item)>, x: Item): set<Item> {
    set pair | pair in holds && pair.0 == x :: pair.1
  }

  /** Every player whose offer a move disturbs is told. */
  ghost predicate Alerted(w: World, a: Action) {
    a.Move? ==>
      (forall p :: Offers(w, p) ==>
         && (Leaves(w.holds, a.m, a.from, w.traders[p].item.value) ==> p in a.outs)
         && (Enters(Moved(w.holds, a.m, a.to), a.m, a.to, w.traders[p].item.value) ==> p in a.ins))
  }

  /** What stays on offer keeps its contents. */
  lemma OfferKeepsContents(w: World, a: Action, p: Player)
    requires Sound(w) && Nesting(w.holds) && Alerted(w, a) && p in w.traders && w.traders[p].item.Some?
    ensures var w' := Step(w, a);
            && Nesting(w'.holds) && p in w'.traders
            && (w'.traders[p].item == w.traders[p].item ==>
                  Contents(w'.holds, w.traders[p].item.value) == Contents(w.holds, w.traders[p].item.value))
  {
    StepKeepsPlayers(w, a);
    if a.Move? && Movable(w.holds, a.m, a.to) {
      MoveKeepsSound(w, a.m, a.from, a.to, a.outs, a.ins);
      MovedNests(w.holds, a.m, a.to);
      if Step(w, a).traders[p].item == w.traders[p].item {
        MoveCloses(w, a.m, a.from, a.to, a.outs, a.ins, p);
        ContentsApart(w.holds, a.m, a.to, w.traders[p].item.value);
      }
    }
  }

  /** A move of something that is neither the offer, nor in it, nor around it, nor put into it. */
  lemma ContentsApart(holds: set<(Item, Item)>, m: Item, to: Option<Item>, x: Item)
    requires Nesting(holds) && Movable(holds, m, to)
    requires x != m && (x, m) !in holds && (m, x) !in holds && (to.Some? ==> (x, m) !in Moved(holds, m, to))
    ensures Contents(Moved(holds, m, to), x) == Contents(holds, x)
  {
    MovedPair(holds, m, to, x, m);
    forall b: Item
      ensures (x, b) in Moved(holds, m, to) <==> (x, b) in holds
    {
      MovedPair(holds, m, to, x, b);
    }
    assert forall b :: b in Contents(holds, x) ==> (x, b) in holds;
    assert forall b :: b in Contents(Moved(holds, m, to), x) ==> (x, b) in Moved(holds, m, to);
    forall b: Item | (x, b) in holds
      ensures b in Contents(holds, x) && b in Contents(Moved(holds, m, to), x)
    {
      assert (x, b) in Moved(holds, m, to);
    }
  }

  /** The player offers the item in every state of the run, and is told of every move that disturbs it. */
  ghost predicate Offering(w: World, actions: seq<Action>, p: Player, x: Item)
    decreases actions
  {
    p in w.traders && w.traders[p].item == Some(x)
    && (actions != [] ==> Alerted(w, actions[0]) && Offering(Step(w, actions[0]), actions[1..], p, x))
  }

  /** As long as an item is on offer, nothing is put into it and nothing taken out. */
  lemma {:induction false} ContentsStay(w: World, actions: seq<Action>, p: Player, x: Item)
    requires Sound(w) && Nesting(w.holds) && Offering(w, actions, p, x)
    ensures Contents(Run(w, actions).holds, x) == Contents(w.holds, x) && Nesting(Run(w, actions).holds)
    decreases actions
  {
    if actions != [] {
      StepKeeps(w, actions[0]);
      OfferKeepsContents(w, actions[0], p);
      ContentsStay(Step(w, actions[0]), actions[1..], p, x);
    }
  }

  // ---------------------------------------------------------------- ownership

  /** The second of two partners to accept, with an item from each side. */
  predicate Concludes(w: World, a: Action) {
    && a.AcceptTrade? && a.p in w.traders
    && var me := w.traders[a.p];
    && (me.state == Acknowledged || me.state == Initiated) && me.item.Some?
    && me.partner.Some? && me.partner.value in w.traders && me.partner.value != a.p
    && w.traders[me.partner.value].state == Accepted && w.traders[me.partner.value].item.Some?
    && a.answers.inSight && a.answers.events && a.answers.canAdd && a.answers.canRemove && a.answers.move1
  }

  /** Ownership changes in no other step, and then only of the two items on offer, each going to
      the other side. The first item always goes; the second only if its move succeeds. */
  lemma OwnershipChanges(w: World, a: Action)
    requires Sound(w)
    ensures var w' := Step(w, a);
            if !Concludes(w, a) then w'.owner == w.owner
            else
              var p, q := a.p, w.traders[a.p].partner.value;
              var item1, item2 := w.traders[p].item.value, w.traders[q].item.value;
              && item1 != item2
              && w'.owner == (if a.answers.move2 then w.owner[item1 := q][item2 := p] else w.owner[item1 := q])
  {
    if Concludes(w, a) {
      var q := w.traders[a.p].partner.value;
      assert TraderInv(w, a.p) && TraderInv(w, q);
    } else if a.AcceptTrade? && a.p in w.traders {
      assert TraderInv(w, a.p);
    } else if a.Move? {
      MoveKeepsSound(w, a.m, a.from, a.to, a.outs, a.ins);
    }
  }

  ghost predicate OffersOwned(w: World) {
    forall p :: p in w.traders && w.traders[p].item.Some? ==> w.traders[p].item.value in w.owner
  }

  lemma StepKeepsOwners(w: World, a: Action)
    requires Sound(w) && OffersOwned(w) && (a.RequestTrade? ==> a.item in w.owner)
    ensures Step(w, a).owner.Keys == w.owner.Keys && OffersOwned(Step(w, a))
  {
    var w' := Step(w, a);
    OwnershipChanges(w, a);
    forall p | p in w'.traders && w'.traders[p].item.Some?
      ensures w'.traders[p].item.value in w.owner
    {
      StepKeepsPlayers(w, a);
      OfferIsFixed(w, a, p);
    }
  }

  /** Every item keeps exactly one owner over every run. */
  lemma {:induction false} ItemsKeepOwners(w: World, actions: seq<Action>)
    requires Sound(w) && OffersOwned(w)
    requires forall i :: 0 <= i < |actions| && actions[i].RequestTrade? ==> actions[i].item in w.owner
    ensures Run(w, actions).owner.Keys == w.owner.Keys
    decreases actions
  {
    if actions != [] {
      StepKeeps(w, actions[0]);
      StepKeepsOwners(w, actions[0]);
      ItemsKeepOwners(Step(w, actions[0]), actions[1..]);
    }
  }

  /** A player's offer after a step: as before, or gone with the trade, or requested just now. */
  ghost predicate OfferKept(w: World, w': World, a: Action, p: Player)
    requires p in w.traders
  {
    && p in w'.traders
    && (w.traders[p].item.Some? ==> w'.traders[p].item == w.traders[p].item || w'.traders[p] == IDLE)
    && (w.traders[p].item == None && w'.traders[p].item.Some? ==>
          a.RequestTrade? && a.p == p && w'.traders[p].item == Some(a.item))
  }

  lemma RequestKeepsOffer(w: World, q: Player, r: Player, item: Item, allowed: bool, p: Player)
    requires Sound(w) && p in w.traders
    ensures OfferKept(w, Request(w, q, r, item, allowed), RequestTrade(q, r, item, allowed), p)
  {
    if q in w.traders && r in w.traders {
      assert TraderInv(w, q) && TraderInv(w, r);
    }
  }

  lemma AcceptKeepsOffer(w: World, q: Player, answers: Answers, p: Player)
    requires Sound(w) && p in w.traders
    ensures OfferKept(w, Accept(w, q, answers), AcceptTrade(q, answers), p)
  {
    if q in w.traders {
      assert TraderInv(w, q);
    }
  }

  /** What a player has on offer appears by that player's request and stays until the trade ends. */
  lemma OfferIsFixed(w: World, a: Action, p: Player)
    requires Sound(w) && p in w.traders
    ensures OfferKept(w, Step(w, a), a, p)
  {
    match a
    case RequestTrade(q, r, item, allowed) => RequestKeepsOffer(w, q, r, item, allowed, p);
    case AcceptTrade(q, answers) => AcceptKeepsOffer(w, q, answers, p);
    case CloseTrade(q) =>
      if q in w.traders {
        assert TraderInv(w, q);
      }
    case Move(m, from, to, outs, ins) => MoveKeepsSound(w, m, from, to, outs, ins);
  }

  // ---------------------------------------------------------------- agreement

  /** The player's acceptance stands. */
  predicate Standing(w: World, q: Player) {
    q in w.traders && w.traders[q].state == Accepted
  }

  /** Both sides of the player's trade have an item on offer. */
  predicate BothOffered(w: World, q: Player) {
    q in w.traders && w.traders[q].item.Some? && w.traders[q].partner.Some?
    && w.traders[q].partner.value in w.traders && w.traders[w.traders[q].partner.value].item.Some?
  }

  /** A run under observation: whose standing acceptance was given with both offers in view, and whose
      partner made the offer only after it. */
  datatype Watch = Watch(w: World, agreed: set<Player>, late: set<Player>)

  function Watched(x: Watch, a: Action): Watch {
    var w' := Step(x.w, a);
    var agreed := x.agreed + (if a.AcceptTrade? && !Standing(x.w, a.p) && BothOffered(x.w, a.p) then {a.p} else {});
    var late := x.late + (if a.RequestTrade? && Standing(x.w, a.q) && w' != x.w then {a.q} else {});
    Watch(w', set q | q in agreed && Standing(w', q), set q | q in late && Standing(w', q))
  }

  ghost predicate WatchInv(x: Watch) {
    && Sound(x.w)
    && (forall q :: q in x.agreed || q in x.late ==> Standing(x.w, q))
    && (forall q :: Standing(x.w, q) ==> Told(x, q))
  }

  ghost predicate Told(x: Watch, q: Player) {
    if BothOffered(x.w, q) then q in x.agreed <==> q !in x.late else q !in x.agreed && q !in x.late
  }

  lemma WatchedKeeps(x: Watch, a: Action)
    requires WatchInv(x)
    ensures WatchInv(Watched(x, a))
  {
    StepKeeps(x.w, a);
    forall r | Standing(Step(x.w, a), r)
      ensures Told(Watched(x, a), r)
    {
      match a
      case RequestTrade(p, q, item, allowed) => ToldAfterRequest(x, p, q, item, allowed, r);
      case AcceptTrade(p, answers) => ToldAfterAccept(x, p, answers, r);
      case CloseTrade(p) => ToldAfterClose(x, p, r);
      case Move(m, from, to, outs, ins) => ToldAfterMove(x, m, from, to, outs, ins, r);
    }
  }

  /** Which sets hold a player whose acceptance stands after the step. */
  lemma WatchedSets(x: Watch, a: Action, r: Player)
    requires Standing(Step(x.w, a), r)
    ensures r in Watched(x, a).agreed <==>
              r in x.agreed || (a.AcceptTrade? && a.p == r && !Standing(x.w, r) && BothOffered(x.w, r))
    ensures r in Watched(x, a).late <==>
              r in x.late || (a.RequestTrade? && a.q == r && Standing(x.w, r) && Step(x.w, a) != x.w)
  {
  }

  /** The acceptance has stood and the offers are the same. */
  lemma ToldStill(x: Watch, a: Action, r: Player)
    requires WatchInv(x) && Standing(x.w, r) && Standing(Step(x.w, a), r)
    requires BothOffered(Step(x.w, a), r) == BothOffered(x.w, r)
    requires a.RequestTrade? && a.q == r ==> Step(x.w, a) == x.w
    ensures Told(Watched(x, a), r)
  {
    assert Told(x, r);
    WatchedSets(x, a, r);
  }

  lemma ToldAfterRequest(x: Watch, p: Player, q: Player, item: Item, allowed: bool, r: Player)
    requires WatchInv(x) && Standing(Request(x.w, p, q, item, allowed), r)
    ensures Told(Watched(x, RequestTrade(p, q, item, allowed)), r)
  {
    var w, w' := x.w, Request(x.w, p, q, item, allowed);
    assert Standing(w, r) && Told(x, r) && TraderInv(w, r);
    WatchedSets(x, RequestTrade(p, q, item, allowed), r);
    if w' != w {
      OffersAfterStart(w, p, q, item, r);
    }
  }

  lemma OffersAfterStart(w: World, p: Player, q: Player, item: Item, r: Player)
    requires Sound(w) && p in w.traders && q in w.traders && p != q && Start(w, p, q, item) != w && Standing(w, r)
    ensures r == q ==> BothOffered(Start(w, p, q, item), q) && !BothOffered(w, q)
    ensures r != q ==> BothOffered(Start(w, p, q, item), r) == BothOffered(w, r)
  {
    assert TraderInv(w, p) && TraderInv(w, q) && TraderInv(w, r);
    assert r != p && Start(w, p, q, item).traders[p].item == Some(item);
  }

  lemma OffersAfterAccept(w: World, p: Player, answers: Answers, r: Player)
    requires Sound(w) && Standing(Accept(w, p, answers), r)
    ensures BothOffered(Accept(w, p, answers), r) == BothOffered(w, r)
    ensures r != p ==> Standing(w, r)
  {
    AcceptKeeps(w, p, answers);
    if p in w.traders {
      assert TraderInv(w, p);
      if w.traders[p].partner.Some? && w.traders[w.traders[p].partner.value].state == Accepted {
        AcceptCloses(w, p, answers);
        OffersWhenFewer(w, Accept(w, p, answers), r);
      }
    }
  }

  lemma AcceptCloses(w: World, p: Player, answers: Answers)
    requires p in w.traders && w.traders[p].partner.Some? && w.traders[p].partner != Some(p)
    requires w.traders[p].partner.value in w.traders && w.traders[w.traders[p].partner.value].state == Accepted
    ensures var w' := Accept(w, p, answers);
            && w'.traders.Keys == w.traders.Keys
            && forall x :: x in w.traders ==> w'.traders[x] == w.traders[x] || w'.traders[x] == IDLE
  {
  }

  lemma ToldAfterAccept(x: Watch, p: Player, answers: Answers, r: Player)
    requires WatchInv(x) && Standing(Accept(x.w, p, answers), r)
    ensures Told(Watched(x, AcceptTrade(p, answers)), r)
  {
    OffersAfterAccept(x.w, p, answers, r);
    if Standing(x.w, r) {
      ToldStill(x, AcceptTrade(p, answers), r);
    } else {
      assert r !in x.agreed && r !in x.late;
      WatchedSets(x, AcceptTrade(p, answers), r);
    }
  }

  /** Where trades are only closed, a player whose acceptance stands sees the same offers. */
  lemma OffersWhenFewer(w: World, w': World, r: Player)
    requires Sound(w) && Sound(w') && w'.traders.Keys == w.traders.Keys && Standing(w', r)
    requires forall p :: p in w.traders ==> w'.traders[p] == w.traders[p] || w'.traders[p] == IDLE
    ensures Standing(w, r) && BothOffered(w', r) == BothOffered(w, r)
  {
    assert w'.traders[r] == w.traders[r] && TraderInv(w, r) && TraderInv(w', r);
  }

  lemma ToldAfterClose(x: Watch, p: Player, r: Player)
    requires WatchInv(x) && Standing(Close(x.w, p), r)
    ensures Told(Watched(x, CloseTrade(p)), r)
  {
    CloseKeeps(x.w, p);
    OffersWhenFewer(x.w, Close(x.w, p), r);
    ToldStill(x, CloseTrade(p), r);
  }

  lemma ToldAfterMove(x: Watch, m: Item, from: Option<Item>, to: Option<Item>, outs: seq<Player>, ins: seq<Player>,
                      r: Player)
    requires WatchInv(x) && Standing(AfterMove(x.w, m, from, to, outs, ins), r)
    ensures Told(Watched(x, Move(m, from, to, outs, ins)), r)
  {
    OffersAfterMove(x.w, m, from, to, outs, ins, r);
    ToldStill(x, Move(m, from, to, outs, ins), r);
  }

  lemma OffersAfterMove(w: World, m: Item, from: Option<Item>, to: Option<Item>, outs: seq<Player>, ins: seq<Player>,
                        r: Player)
    requires Sound(w) && Standing(AfterMove(w, m, from, to, outs, ins), r)
    ensures Standing(w, r) && BothOffered(AfterMove(w, m, from, to, outs, ins), r) == BothOffered(w, r)
  {
    MoveKeepsSound(w, m, from, to, outs, ins);
    OffersWhenFewer(w, AfterMove(w, m, from, to, outs, ins), r);
  }

  function WatchRun(x: Watch, actions: seq<Action>): Watch
    decreases actions
  {
    if actions == [] then x else WatchRun(Watched(x, actions[0]), actions[1..])
  }

  lemma {:induction false} WatchRunKeeps(x: Watch, actions: seq<Action>)
    requires WatchInv(x)
    ensures WatchInv(WatchRun(x, actions)) && WatchRun(x, actions).w == Run(x.w, actions)
    decreases actions
  {
    if actions != [] {
      WatchedKeeps(x, actions[0]);
      WatchRunKeeps(Watched(x, actions[0]), actions[1..]);
    }
  }

  /** In every run from a state in which no acceptance stands, when the second acceptance concludes a
      trade, the first was given with both offers in view if and only if no offer came after it.
      The original takes such a late offer without asking again. */
  lemma AgreedIff(w: World, actions: seq<Action>, a: Action)
    requires Sound(w) && (forall q :: !Standing(w, q)) && Concludes(Run(w, actions), a)
    ensures var x, w' := WatchRun(Watch(w, {}, {}), actions), Run(w, actions);
            var q := w'.traders[a.p].partner.value;
            && x.w == w' && BothOffered(w', a.p)
            && (q in x.agreed <==> q !in x.late)
  {
    WatchRunKeeps(Watch(w, {}, {}), actions);
    var x := WatchRun(Watch(w, {}, {}), actions);
    var q := x.w.traders[a.p].partner.value;
    assert TraderInv(x.w, a.p) && Told(x, q);
  }

  /** A reachable trade that one side never agreed to: player 1 accepts before player 2 has offered
      anything, and the items change hands. */
  lemma LateOfferWitness(w: World, yes: Answers)
    requires w == World(map[1 := IDLE, 2 := IDLE], map[], map[10 := 1, 20 := 2], {})
    requires yes == Answers(true, true, true, true, true, true)
    ensures var w3 := Run(w, [RequestTrade(1, 2, 10, true), AcceptTrade(1, yes), RequestTrade(2, 1, 20, true)]);
            && Concludes(w3, AcceptTrade(2, yes)) && Accept(w3, 2, yes).owner == map[10 := 2, 20 := 1]
            && 1 in WatchRun(Watch(w, {}, {}), [RequestTrade(1, 2, 10, true), AcceptTrade(1, yes),
                                                RequestTrade(2, 1, 20, true)]).late
  {
    var w1 := Request(w, 1, 2, 10, true);
    assert w1 == World(map[1 := Trader(Initiated, Some(2), Some(10)), 2 := Trader(Acknowledged, Some(1), None)],
                       map[10 := 1], w.owner, {});
    var w2 := Accept(w1, 1, yes);
    assert w2 == w1.(traders := map[1 := Trader(Accepted, Some(2), Some(10)), 2 := w1.traders[2]]);
    LateOffer(w2, yes);
    ThreeWatched(Watch(w, {}, {}), RequestTrade(1, 2, 10, true), AcceptTrade(1, yes), RequestTrade(2, 1, 20, true));
    WatchThree(w, RequestTrade(1, 2, 10, true), AcceptTrade(1, yes), RequestTrade(2, 1, 20, true));
  }

  lemma LateOffer(w2: World, yes: Answers)
    requires w2.traders == map[1 := Trader(Accepted, Some(2), Some(10)), 2 := Trader(Acknowledged, Some(1), None)]
    requires w2.tradeItems == map[10 := 1] && w2.owner == map[10 := 1, 20 := 2] && w2.holds == {}
    requires yes == Answers(true, true, true, true, true, true)
    ensures var w3 := Request(w2, 2, 1, 20, true);
            && w3 != w2 && Standing(w2, 1) && Standing(w3, 1)
            && Concludes(w3, AcceptTrade(2, yes)) && Accept(w3, 2, yes).owner == map[10 := 2, 20 := 1]
  {
    var w3 := Request(w2, 2, 1, 20, true);
    assert w3.traders == map[1 := w2.traders[1], 2 := Trader(Initiated, Some(1), Some(20))];
    assert Accept(w3, 2, yes).owner == w2.owner[20 := 1][10 := 2];
  }

  lemma ThreeWatched(x: Watch, a: Action, b: Action, c: Action)
    ensures WatchRun(x, [a, b, c]) == Watched(Watched(Watched(x, a), b), c)
  {
    var x1 := Watched(x, a);
    var x2 := Watched(x1, b);
    assert [a, b, c][1..] == [b, c] && [b, c][1..] == [c] && [c][1..] == [];
    assert WatchRun(x2, [c]) == WatchRun(Watched(x2, c), []);
    assert WatchRun(x1, [b, c]) == WatchRun(x2, [c]);
  }

  lemma WatchThree(w: World, a: Action, b: Action, c: Action)
    ensures Run(w, [a, b, c]) == Step(Step(Step(w, a), b), c)
  {
    var w1 := Step(w, a);
    var w2 := Step(w1, b);
    assert [a, b, c][1..] == [b, c] && [b, c][1..] == [c] && [c][1..] == [];
    assert Run(w2, [c]) == Run(Step(w2, c), []);
    assert Run(w1, [b, c]) == Run(w2, [c]);
  }

  // ---------------------------------------------------------------- half trades

  /** A reachable half trade: the first item changes hands and the second does not. The test of the
      second move allows stacking and the move itself does not, so it fails for a stack of coins that
      goes to a player whose slots and containers are full, with a stack of such coins in one of
      them that is not full, and whose own item on offer lies on the ground and frees no place. */
  lemma HalfTradeWitness(w: World, allYes: Answers)
    requires w == World(map[1 := IDLE, 2 := IDLE], map[], map[10 := 1, 20 := 2], {})
    requires allYes == Answers(true, true, true, true, true, false)
    ensures Run(w, [RequestTrade(1, 2, 10, true), RequestTrade(2, 1, 20, true), AcceptTrade(1, allYes),
                    AcceptTrade(2, allYes)]).owner == map[10 := 1, 20 := 1]
  {
    var w1 := Request(w, 1, 2, 10, true);
    assert w1 == World(map[1 := Trader(Initiated, Some(2), Some(10)), 2 := Trader(Acknowledged, Some(1), None)],
                       map[10 := 1], w.owner, {});
    var w2 := Request(w1, 2, 1, 20, true);
    assert w2.traders == map[1 := Trader(Initiated, Some(2), Some(10)), 2 := Trader(Initiated, Some(1), Some(20))];
    assert w2.owner == w.owner;
    BothAccept(w2, allYes);
    FourSteps(w, RequestTrade(1, 2, 10, true), RequestTrade(2, 1, 20, true), AcceptTrade(1, allYes),
              AcceptTrade(2, allYes));
  }

  lemma BothAccept(w: World, allYes: Answers)
    requires w.traders == map[1 := Trader(Initiated, Some(2), Some(10)), 2 := Trader(Initiated, Some(1), Some(20))]
    requires w.owner == map[10 := 1, 20 := 2] && allYes == Answers(true, true, true, true, true, false)
    ensures Accept(Accept(w, 1, allYes), 2, allYes).owner == map[10 := 1, 20 := 1]
  {
    var w1 := Accept(w, 1, allYes);
    assert w1.traders[2] == w.traders[2] && w1.owner == w.owner;
    assert Accept(w1, 2, allYes).owner == w.owner[20 := 1];
  }

  lemma FourSteps(w: World, a: Action, b: Action, c: Action, d: Action)
    ensures Run(w, [a, b, c, d]) == Step(Step(Step(Step(w, a), b), c), d)
  {
    var w1 := Step(w, a);
    var w2 := Step(w1, b);
    var w3 := Step(w2, c);
    assert [a, b, c, d][1..] == [b, c, d] && [b, c, d][1..] == [c, d] && [c, d][1..] == [d] && [d][1..] == [];
    assert Run(w2, [c, d]) == Run(w3, [d]) == Run(Step(w3, d), []);
    assert Run(w1, [b, c, d]) == Run(w2, [c, d]);
  }

  lemma BackToIdle(traders: map<Player, Trader>, p: Player, q: Player, t: Trader, u: Trader)
    ensures p != q ==> traders[p := t][q := u][p := IDLE][q := IDLE] == traders[p := IDLE][q := IDLE]
  {
  }

  // ---------------------------------------------------------------- the game's methods

  class TradeDesk {
    var holds: set<(Item, Item)>
    var traders: map<Player, Trader>
    var tradeItems: map<Item, Player>
    var owner: map<Item, Player>

    ghost function View(): World
      reads this
    {
      World(traders, tradeItems, owner, holds)
    }

    constructor (players: set<Player>, owner: map<Item, Player>, holds: set<(Item, Item)>)
      ensures Inv(View()) && View() == World(map p | p in players :: IDLE, map[], owner, holds)
    {
      traders, tradeItems := map p | p in players :: IDLE, map[];
      this.owner, this.holds := owner, holds;
    }

    /** The search through the items already on offer. */
    method IsTraded(item: Item) returns (found: bool)
      ensures found == Conflicts(View(), item)
    {
      var rest := tradeItems.Keys;
      while rest != {}
        invariant rest <= tradeItems.Keys
        invariant forall other :: other in tradeItems && other !in rest ==> !Clashes(holds, item, other)
      {
        var other :| other in rest;
        if Clashes(holds, item, other) {
          return true;
        }
        rest := rest - {other};
      }
      found := false;
    }

    method PlayerRequestTrade(p: Player, q: Player, item: Item, allowed: bool)
      requires Sound(View())
      modifies this
      ensures View() == Request(old(View()), p, q, item, allowed) && Keeps(old(View()), View())
    {
      StepKeeps(View(), RequestTrade(p, q, item, allowed));
      if p !in traders || q !in traders || p == q || !allowed {
        return;
      }
      var traded := IsTraded(item);
      if traded {
        return;
      }
      var started := InternalStartTrade(p, q, item);
    }

    method InternalStartTrade(p: Player, q: Player, item: Item) returns (ok: bool)
      requires p in traders && q in traders && p != q
      modifies this`traders, this`tradeItems
      ensures View() == Start(old(View()), p, q, item)
      ensures ok == Startable(old(View()), p, q)
    {
      if traders[p].state != NoTrade && !(traders[p].state == Acknowledged && traders[p].partner == Some(q)) {
        return false;
      } else if traders[q].state != NoTrade && traders[q].partner != Some(p) {
        return false;
      }
      traders := traders[p := Trader(Initiated, Some(q), Some(item))];
      tradeItems := tradeItems[item := p];
      if traders[q].state == NoTrade {
        traders := traders[q := traders[q].(state := Acknowledged, partner := Some(p))];
      }
      ok := true;
    }

    method Erase(item: Option<Item>)
      modifies this`tradeItems
      ensures tradeItems == Forget(old(tradeItems), item)
    {
      if item.Some? {
        tradeItems := tradeItems - {item.value};
      }
    }

    method InternalCloseTrade(p: Player)
      requires p in traders && traders[p].partner != Some(p)
      modifies this`traders, this`tradeItems
      ensures View() == Close(old(View()), p)
    {
      var me := traders[p];
      var partnered := me.partner.Some? && me.partner.value in traders;
      if (partnered && traders[me.partner.value].state == Transferring) || me.state == Transferring {
        return;
      }
      Erase(me.item);
      traders := traders[p := IDLE];
      if partnered {
        var q := me.partner.value;
        Erase(traders[q].item);
        traders := traders[q := IDLE];
      }
    }

    method PlayerAcceptTrade(p: Player, a: Answers)
      requires Sound(View())
      modifies this
      ensures View() == Accept(old(View()), p, a) && Keeps(old(View()), View())
    {
      AcceptKeeps(View(), p, a);
      Partners(View());
      if p !in traders {
        return;
      }
      if !(traders[p].state == Acknowledged || traders[p].state == Initiated) {
        return;
      }
      if traders[p].partner == None || !a.inSight {
        return;
      }
      var q := traders[p].partner.value;
      traders := traders[p := traders[p].(state := Accepted)];
      if traders[q].state == Accepted {
        if !a.events {
          InternalCloseTrade(p);
        } else {
          TransferItems(p, q, a);
        }
      }
    }

    /** `checkTradeState` and its companions, for each player who is notified. */
    method CheckTradeStates(players: seq<Player>, hit: set<Item>)
      requires Paired(View())
      modifies this`traders, this`tradeItems
      ensures View() == Notify(old(View()), players, hit) && Paired(View())
    {
      assert players[0..] == players;
      for i := 0 to |players|
        invariant Paired(View())
        invariant Notify(View(), players[i..], hit) == Notify(old(View()), players, hit)
      {
        var p := players[i];
        assert players[i..][0] == p && players[i..][1..] == players[i + 1..];
        if p in traders && traders[p].item.Some? && traders[p].item.value in hit {
          InternalCloseTrade(p);
        }
      }
    }

    /** The item is taken from its place and put into another; both are noticed nearby. */
    method MoveItem(m: Item, from: Option<Item>, to: Option<Item>, outs: seq<Player>, ins: seq<Player>)
      requires Sound(View())
      modifies this
      ensures View() == AfterMove(old(View()), m, from, to, outs, ins) && Sound(View())
    {
      MoveKeepsSound(View(), m, from, to, outs, ins);
      Partners(View());
      if !Movable(holds, m, to) {
        return;
      }
      CheckTradeStates(outs, Disturbed(tradeItems, holds, m, from));
      holds := Moved(holds, m, to);
      CheckTradeStates(ins, Filled(tradeItems, holds, m, to));
    }

    /** The exchange between two players who have both accepted. */
    method TransferItems(p: Player, q: Player, a: Answers)
      requires p in traders && q in traders && p != q && traders[p].partner == Some(q)
      modifies this
      ensures View() == Reset(old(View()).(owner := Exchange(old(owner), p, q, old(traders[p].item),
                                                              old(traders[q].item), a)), p)
    {
      var item1, item2 := traders[p].item, traders[q].item;
      traders := traders[p := traders[p].(state := Transferring)];
      traders := traders[q := traders[q].(state := Transferring)];
      Erase(item1);
      Erase(item2);
      if item1.Some? && item2.Some? && a.canAdd && a.canRemove {
        if a.move1 {
          owner := owner[item1.value := q];
          if a.move2 {
            owner := owner[item2.value := p];
          }
        }
      }
      assert owner == Exchange(old(owner), p, q, item1, item2, a);
      BackToIdle(old(traders), p, q, traders[p], traders[q]);
      traders := traders[p := IDLE];
      traders := traders[q := IDLE];
    }
  }
}
