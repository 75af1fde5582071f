/** The item market: offers with escrow, and the books of money and items. */
module Market {
  import opened Basics
  import opened Sums
  import Money

  const MAX_PRICE: nat := 999_999_999_999
  const MIN_FEE: nat := 20
  const MAX_FEE: nat := 1_000_000

  type Guid = nat
  type ItemId = nat
  type OfferId = nat

  /** Transferable coins: held by accounts instead of players, and moved without a container. */
  const STORE_COIN: ItemId := 22118

  datatype Side = Buy | Sell
  datatype Offer = Offer(owner: Guid, side: Side, item: ItemId, amount: nat, price: nat)

  /** What a holder has of one item: in the stash, and as stacks in the locker with its inbox. */
  datatype Goods = Goods(stash: nat, locker: seq<nat>)

  datatype World = World(carried: map<Guid, int>, bank: map<Guid, int>, account: map<Guid, nat>,
                         ground: int, fees: int,
                         goods: map<ItemId, map<nat, Goods>>, offers: map<OfferId, Offer>, nextOffer: OfferId)

  // ---------------------------------------------------------------- the books

  /** The gold that an active buy offer holds. */
  function Escrow(o: Offer): int {
    if o.side == Buy then o.price * o.amount else 0
  }

  /** All gold: carried, banked, dropped as change, and held by buy offers. */
  ghost function Gold(w: World): int {
    Sum(w.carried, Self) + Sum(w.bank, Self) + w.ground + Sum(w.offers, Escrow)
  }

  function Total(stacks: seq<nat>): nat {
    if stacks == [] then 0 else stacks[0] + Total(stacks[1..])
  }

  function Pieces(g: Goods): int {
    g.stash + Total(g.locker)
  }

  /** The pieces of item `i` that an active sell offer holds. */
  function Held(i: ItemId): Offer -> int {
    (o: Offer) => if o.side == Sell && o.item == i then o.amount else 0
  }

  function Holdings(w: World, i: ItemId): map<nat, Goods> {
    if i in w.goods then w.goods[i] else map[]
  }

  ghost function Stock(w: World, i: ItemId): int {
    Sum(Holdings(w, i), Pieces) + Sum(w.offers, Held(i))
  }

  ghost predicate ValidOffer(w: World, o: Offer) {
    && o.owner in w.bank && 1 <= o.amount <= 64000 && 1 <= o.price <= MAX_PRICE
  }

  ghost predicate Inv(w: World) {
    && w.carried.Keys == w.bank.Keys == w.account.Keys && w.ground >= 0
    && (forall p :: p in w.bank ==> w.carried[p] >= 0 && w.bank[p] >= 0)
    && (forall id :: id in w.offers ==> id < w.nextOffer && ValidOffer(w, w.offers[id]))
  }

  // ---------------------------------------------------------------- taking items

  /** Stacks are emptied front to back; the second result is how much that gave. */
  function TakeStacks(stacks: seq<nat>, amount: nat): (seq<nat>, nat) {
    if stacks == [] || amount == 0 then (stacks, 0)
    else if stacks[0] <= amount then
      var (rest, got) := TakeStacks(stacks[1..], amount - stacks[0]);
      (rest, got + stacks[0])
    else ([stacks[0] - amount] + stacks[1..], amount)
  }

  lemma {:induction false} TakeStacksTotal(stacks: seq<nat>, amount: nat)
    ensures var (rest, got) := TakeStacks(stacks, amount);
            Total(rest) + got == Total(stacks) && got == if Total(stacks) < amount then Total(stacks) else amount
  {
    if stacks != [] && amount > 0 {
      if stacks[0] <= amount {
        TakeStacksTotal(stacks[1..], amount - stacks[0]);
      } else {
        assert ([stacks[0] - amount] + stacks[1..])[1..] == stacks[1..];
      }
    }
  }

  /** Some stacks at the front are taken whole, and the next one in part when that is needed. */
  lemma {:induction false} TakesFront(stacks: seq<nat>, amount: nat) returns (k: nat)
    ensures k <= |stacks| && Total(stacks[..k]) <= amount
    ensures var (rest, got) := TakeStacks(stacks, amount);
            || (rest == stacks[k..] && got == Total(stacks[..k]) && (k < |stacks| ==> got == amount))
            || (k < |stacks| && got == amount && 0 < amount - Total(stacks[..k]) < stacks[k]
                && rest == [stacks[k] - (amount - Total(stacks[..k]))] + stacks[k + 1..])
  {
    k := 0;
    if stacks != [] && amount > 0 && stacks[0] <= amount {
      k := TakesFront(stacks[1..], amount - stacks[0]);
      assert stacks[..k + 1] == [stacks[0]] + stacks[1..][..k];
      assert stacks[1..][k..] == stacks[k + 1..];
      k := k + 1;
    }
  }

  /** `removeOfferItems`: the stash first, then the locker. The stack count has 16 bits. What was
      taken before a failure is not given back. */
  function RemoveOfferItems(g: Goods, amount: nat): (bool, Goods) {
    var fromStash := if amount > g.stash then g.stash else amount;
    var g1 := g.(stash := g.stash - fromStash);
    var need := amount - fromStash;
    if need == 0 then (true, g1)
    else if |g.locker| % U16 == 0 then (false, g1)
    else
      var (locker, got) := TakeStacks(g.locker, need);
      (got == need, g1.(locker := locker))
  }

  /** What the locker shows: nothing when its 16-bit stack count wraps to zero. */
  function Shown(g: Goods): nat {
    if |g.locker| % U16 == 0 then 0 else Total(g.locker)
  }

  /** The pieces for a removal are there. */
  predicate Suffices(g: Goods, amount: nat) {
    amount <= g.stash + Shown(g)
  }

  /** A removal succeeds exactly when the pieces are there, and takes exactly the amount. A failed
      one destroys whatever it could reach: nothing is lost exactly when that is nothing. */
  lemma RemoveOfferItemsBooks(g: Goods, amount: nat)
    ensures var (ok, g') := RemoveOfferItems(g, amount);
            && (ok <==> Suffices(g, amount))
            && Pieces(g') == Pieces(g) - (if ok then amount else g.stash + Shown(g))
  {
    var need := amount - (if amount > g.stash then g.stash else amount);
    TakeStacksTotal(g.locker, need);
  }

  /** The locker is touched only for what the stash does not have. */
  lemma StashFirst(g: Goods, amount: nat)
    ensures var g' := RemoveOfferItems(g, amount).1;
            && g'.stash == (if amount > g.stash then 0 else g.stash - amount)
            && g'.locker == (if amount > g.stash && |g.locker| % U16 != 0
                             then TakeStacks(g.locker, amount - g.stash).0 else g.locker)
  {
  }

  /** Whether a removal keeps the books, either by taking the amount or by touching nothing. */
  predicate RemovalIsSafe(g: Goods, amount: nat) {
    Suffices(g, amount) || g.stash + Shown(g) == 0
  }

  /** Five pieces in the stash and two in the locker: an offer for ten destroys all seven. */
  lemma FailedRemovalWitness()
    ensures RemoveOfferItems(Goods(5, [2]), 10) == (false, Goods(0, []))
  {
    assert TakeStacks([2], 5) == ([], 2);
  }

  // ---------------------------------------------------------------- moving items and money

  function GoodsOf(w: World, i: ItemId, holder: nat): Goods {
    if holder in Holdings(w, i) then Holdings(w, i)[holder] else Goods(0, [])
  }

  function SetGoods(w: World, i: ItemId, holder: nat, g: Goods): World {
    w.(goods := w.goods[i := Holdings(w, i)[holder := g]])
  }

  /** Who holds an item for a player. */
  function Holder(w: World, p: Guid, i: ItemId): nat
    requires p in w.account
  {
    if i == STORE_COIN then w.account[p] else p
  }

  /** Taking items from a player, for a new sell offer or for a sale. */
  function TakeItems(w: World, p: Guid, i: ItemId, amount: nat): (bool, World)
    requires p in w.account
  {
    var g := GoodsOf(w, i, Holder(w, p, i));
    if i == STORE_COIN then
      if amount > g.stash then (false, w)
      else (true, SetGoods(w, i, Holder(w, p, i), g.(stash := g.stash - amount)))
    else
      var (ok, g') := RemoveOfferItems(g, amount);
      (ok, SetGoods(w, i, p, g'))
  }

  /** The items are there to be taken. */
  predicate HasItems(w: World, p: Guid, i: ItemId, amount: nat)
    requires p in w.account
  {
    var g := GoodsOf(w, i, Holder(w, p, i));
    if i == STORE_COIN then amount <= g.stash else Suffices(g, amount)
  }

  function GiveItems(w: World, p: Guid, i: ItemId, amount: nat): World
    requires p in w.account
  {
    var g := GoodsOf(w, i, Holder(w, p, i));
    SetGoods(w, i, Holder(w, p, i),
             if i == STORE_COIN then g.(stash := g.stash + amount) else g.(locker := g.locker + [amount]))
  }

  /** `removeMoney` on a player: coins first, then the bank. At most `dropped` of the change falls
      on the tile. */
  function Pay(w: World, p: Guid, amount: nat, dropped: nat): World
    requires p in w.carried && p in w.bank
  {
    var owed := if w.carried[p] < amount then amount - w.carried[p] else 0;
    var left := w.carried[p] - (amount - owed);
    var onTile := if dropped < left then dropped else left;
    w.(carried := w.carried[p := left - onTile], bank := w.bank[p := w.bank[p] - owed], ground := w.ground + onTile)
  }

  /** The 2% fee, however it was rounded, clamped. */
  function Fee(rounded: nat): (fee: nat)
    ensures MIN_FEE <= fee <= MAX_FEE && (MIN_FEE <= rounded <= MAX_FEE ==> fee == rounded)
    ensures (rounded < MIN_FEE ==> fee == MIN_FEE) && (rounded > MAX_FEE ==> fee == MAX_FEE)
  {
    var maxFee := if rounded < MAX_FEE then rounded else MAX_FEE;
    if maxFee < MIN_FEE then MIN_FEE
    else if rounded < MIN_FEE then MIN_FEE
    else if rounded > maxFee then maxFee
    else rounded
  }

  // ---------------------------------------------------------------- the steps

  predicate GoodAmount(amount: nat, stackable: bool) {
    amount > 0 && amount <= (if stackable then 64000 else 2000)
  }

  /** Every check before a new offer touches items or money; `rounded` is the 2% fee. */
  predicate CreateChecks(w: World, p: Guid, side: Side, amount: nat, price: nat, stackable: bool, rounded: nat) {
    && p in w.bank && p in w.carried && p in w.account
    && 0 < price <= MAX_PRICE && GoodAmount(amount, stackable)
    && Cost(side, amount, price, rounded) <= w.carried[p] + w.bank[p]
  }

  /** What an offer costs its owner: the fee, and for a buy offer the total price. */
  function Cost(side: Side, amount: nat, price: nat, rounded: nat): nat {
    if side == Sell then Fee(rounded) else price * amount + Fee(rounded)
  }

  /** `playerCreateMarketOffer`. */
  function Create(w: World, p: Guid, side: Side, i: ItemId, amount: nat, price: nat, stackable: bool,
                  rounded: nat, dropped: nat): World
  {
    if !CreateChecks(w, p, side, amount, price, stackable, rounded) then w
    else
      var (ok, taken) := if side == Sell then TakeItems(w, p, i, amount) else (true, w);
      if !ok then taken
      else
        Publish(Charge(taken, p, Cost(side, amount, price, rounded), Fee(rounded), dropped),
                Offer(p, side, i, amount, price))
  }

  /** The fee, as a part of what is paid, leaves the game; the rest goes into the offer. */
  function Charge(w: World, p: Guid, paid: nat, fee: nat, dropped: nat): World
    requires p in w.carried && p in w.bank
  {
    Pay(w, p, paid, dropped).(fees := w.fees + fee)
  }

  function Publish(w: World, o: Offer): World {
    w.(offers := w.offers[w.nextOffer := o], nextOffer := w.nextOffer + 1)
  }

  predicate CancelChecks(w: World, p: Guid, id: OfferId) {
    id in w.offers && w.offers[id].owner == p && p in w.bank && p in w.account
  }

  /** `playerCancelMarketOffer`; the inbox accepts `inserted` of the pieces. */
  function Cancel(w: World, p: Guid, id: OfferId, inserted: nat): World {
    if !CancelChecks(w, p, id) then w
    else
      var o := w.offers[id];
      var closed := w.(offers := w.offers - {id});
      if o.side == Buy then CreditBank(closed, p, o.price * o.amount)
      else GiveItems(closed, p, o.item, Accepted(o.item, o.amount, inserted))
  }

  function CreditBank(w: World, p: Guid, v: int): World
    requires p in w.bank
  {
    w.(bank := w.bank[p := w.bank[p] + v])
  }

  /** How many pieces arrive: all coins, but of other items only what the inbox takes. */
  function Accepted(i: ItemId, amount: nat, inserted: nat): (n: nat)
    ensures n <= amount
  {
    if i == STORE_COIN || inserted > amount then amount else inserted
  }

  /** What is left of an offer. */
  function Reduce(w: World, id: OfferId, amount: nat): World
    requires id in w.offers && amount <= w.offers[id].amount
  {
    var o := w.offers[id];
    w.(offers := if o.amount == amount then w.offers - {id} else w.offers[id := o.(amount := o.amount - amount)])
  }

  /** The seller's price after a partial insertion is computed in 32 bits. */
  function EffectivePrice(price: nat, amount: nat, got: nat): nat {
    if got < amount then price % U32 * got % U32 else price * amount
  }

  /** Every check before an acceptance touches items or money, but for the one on own offers. */
  predicate OfferChecks(w: World, p: Guid, id: OfferId, amount: nat, stackable: bool) {
    && p in w.bank && p in w.carried && p in w.account && id in w.offers
    && var o := w.offers[id];
    && GoodAmount(amount, stackable) && amount <= o.amount
    && o.owner in w.bank && o.owner in w.account
    && (o.side == Sell ==> o.price * amount <= w.bank[p] + w.carried[p])
  }

  /** Two characters of one account pass the check on own offers: every player loads an account object
      of its own, and the code compares the objects. */
  predicate AcceptChecks(w: World, p: Guid, id: OfferId, amount: nat, stackable: bool) {
    OfferChecks(w, p, id, amount, stackable) && w.offers[id].owner != p
  }

  /** `playerAcceptMarketOffer`. */
  function Accept(w: World, p: Guid, id: OfferId, amount: nat, stackable: bool, inserted: nat, dropped: nat): World {
    if !AcceptChecks(w, p, id, amount, stackable) then w
    else
      var o := w.offers[id];
      var got := Accepted(o.item, amount, inserted);
      if o.side == Buy then
        var (ok, taken) := TakeItems(w, p, o.item, amount);
        if !ok then taken else Sale(taken, p, id, amount, got)
      else Purchase(w, p, id, amount, got, dropped)
  }

  /** The end of a sale into buy offer `id`: the seller is paid for `amount`, `got` arrive. */
  function Sale(w: World, p: Guid, id: OfferId, amount: nat, got: nat): World
    requires p in w.bank && id in w.offers && w.offers[id].owner in w.account && got <= w.offers[id].amount
  {
    var o := w.offers[id];
    var paid := CreditBank(w, p, o.price * amount);
    Reduce(GiveItems(paid, o.owner, o.item, got), id, got)
  }

  /** A purchase from sell offer `id`: the buyer pays for `amount`, `got` arrive. */
  function Purchase(w: World, p: Guid, id: OfferId, amount: nat, got: nat, dropped: nat): World
    requires p in w.bank && p in w.carried && p in w.account && id in w.offers && got <= w.offers[id].amount
    requires w.offers[id].owner in w.bank
  {
    var o := w.offers[id];
    var paid := PayBankFirst(w, p, o.price * amount, dropped);
    var given := GiveItems(paid, p, o.item, got);
    Reduce(CreditBank(given, o.owner, EffectivePrice(o.price, amount, got)), id, got)
  }

  /** Accepting a sell offer empties the bank account before it touches coins. */
  function PayBankFirst(w: World, p: Guid, amount: nat, dropped: nat): World
    requires p in w.carried && p in w.bank
  {
    if amount <= w.bank[p] then w.(bank := w.bank[p := w.bank[p] - amount])
    else
      Pay(w.(bank := w.bank[p := 0]), p, amount - w.bank[p], dropped)
  }

  // ---------------------------------------------------------------- how each part moves the books

  lemma OfferUpdate(m: map<OfferId, Offer>, id: OfferId, o: Offer, i: ItemId)
    ensures Sum(m[id := o], Escrow) == Sum(m, Escrow) - (if id in m then Escrow(m[id]) else 0) + Escrow(o)
    ensures Sum(m[id := o], Held(i)) == Sum(m, Held(i)) - (if id in m then Held(i)(m[id]) else 0) + Held(i)(o)
  {
    SumUpdate(m, Escrow, id, o);
    SumUpdate(m, Held(i), id, o);
  }

  lemma OfferRemoval(m: map<OfferId, Offer>, id: OfferId, i: ItemId)
    requires id in m
    ensures Sum(m - {id}, Escrow) == Sum(m, Escrow) - Escrow(m[id])
    ensures Sum(m - {id}, Held(i)) == Sum(m, Held(i)) - Held(i)(m[id])
  {
    SumWithout(m, Escrow, id);
    SumWithout(m, Held(i), id);
  }

  lemma SetGoodsBooks(w: World, i: ItemId, holder: nat, g: Goods, j: ItemId)
    ensures Stock(SetGoods(w, i, holder, g), j)
         == Stock(w, j) + (if i == j then Pieces(g) - Pieces(GoodsOf(w, i, holder)) else 0)
    ensures Gold(SetGoods(w, i, holder, g)) == Gold(w)
  {
    SumUpdate(Holdings(w, i), Pieces, holder, g);
    assert Pieces(Goods(0, [])) == 0;
  }

  lemma {:induction false} TotalAppend(stacks: seq<nat>, n: nat)
    ensures Total(stacks + [n]) == Total(stacks) + n
  {
    if stacks == [] {
      assert stacks + [n] == [n];
      assert Total([n]) == [n][0] + Total([n][1..]);
    } else {
      assert (stacks + [n])[1..] == stacks[1..] + [n];
      TotalAppend(stacks[1..], n);
    }
  }

  lemma GiveItemsBooks(w: World, p: Guid, i: ItemId, amount: nat, j: ItemId)
    requires p in w.account
    ensures Stock(GiveItems(w, p, i, amount), j) == Stock(w, j) + (if i == j then amount else 0)
    ensures Gold(GiveItems(w, p, i, amount)) == Gold(w)
  {
    var g := GoodsOf(w, i, Holder(w, p, i));
    TotalAppend(g.locker, amount);
    SetGoodsBooks(w, i, Holder(w, p, i),
                  if i == STORE_COIN then g.(stash := g.stash + amount) else g.(locker := g.locker + [amount]), j);
  }

  /** Whether taking items keeps their number, as an offer or as a sale. */
  predicate TakingIsSafe(w: World, p: Guid, i: ItemId, amount: nat)
    requires p in w.account
  {
    i == STORE_COIN || RemovalIsSafe(GoodsOf(w, i, p), amount)
  }

  lemma TakeItemsBooks(w: World, p: Guid, i: ItemId, amount: nat, j: ItemId)
    requires p in w.account
    ensures var (ok, w') := TakeItems(w, p, i, amount);
            && (ok <==> HasItems(w, p, i, amount))
            && Gold(w') == Gold(w) && w' == w.(goods := w'.goods)
            && (ok ==> Stock(w', j) == Stock(w, j) - (if i == j then amount else 0) && TakingIsSafe(w, p, i, amount))
            && (!ok && i != j ==> Stock(w', j) == Stock(w, j))
            && (!ok && i == j ==> (Stock(w', j) == Stock(w, j) <==> TakingIsSafe(w, p, i, amount)))
  {
    var holder := Holder(w, p, i);
    var g := GoodsOf(w, i, holder);
    if i == STORE_COIN {
      if amount <= g.stash {
        SetGoodsBooks(w, i, holder, g.(stash := g.stash - amount), j);
      }
    } else {
      RemoveOfferItemsBooks(g, amount);
      SetGoodsBooks(w, i, p, RemoveOfferItems(g, amount).1, j);
    }
  }

  /** Only money has moved. */
  ghost predicate SameItems(w: World, w': World) {
    && w'.goods == w.goods && w'.offers == w.offers && w'.nextOffer == w.nextOffer && w'.fees == w.fees
    && w'.account == w.account && w'.bank.Keys == w.bank.Keys
  }

  lemma SameStock(w: World, w': World, j: ItemId)
    requires w'.goods == w.goods && w'.offers == w.offers
    ensures Stock(w', j) == Stock(w, j)
  {
  }

  lemma PayBooks(w: World, p: Guid, amount: nat, dropped: nat)
    requires Inv(w) && p in w.bank && amount <= w.carried[p] + w.bank[p]
    ensures Inv(Pay(w, p, amount, dropped)) && Gold(Pay(w, p, amount, dropped)) == Gold(w) - amount
    ensures SameItems(w, Pay(w, p, amount, dropped))
  {
    var w' := Pay(w, p, amount, dropped);
    AmountUpdate(w.carried, p, w'.carried[p]);
    AmountUpdate(w.bank, p, w'.bank[p]);
  }

  lemma PayBankFirstBooks(w: World, p: Guid, amount: nat, dropped: nat)
    requires Inv(w) && p in w.bank && amount <= w.carried[p] + w.bank[p]
    ensures Inv(PayBankFirst(w, p, amount, dropped))
    ensures Gold(PayBankFirst(w, p, amount, dropped)) == Gold(w) - amount
    ensures SameItems(w, PayBankFirst(w, p, amount, dropped))
  {
    if amount <= w.bank[p] {
      AmountUpdate(w.bank, p, w.bank[p] - amount);
    } else {
      AmountUpdate(w.bank, p, 0);
      PayBooks(w.(bank := w.bank[p := 0]), p, amount - w.bank[p], dropped);
    }
  }

  lemma ReduceBooks(w: World, id: OfferId, amount: nat, i: ItemId)
    requires Inv(w) && id in w.offers && amount <= w.offers[id].amount
    ensures var o := w.offers[id];
            && Inv(Reduce(w, id, amount))
            && Gold(Reduce(w, id, amount)) == Gold(w) - (if o.side == Buy then o.price * amount else 0)
            && Stock(Reduce(w, id, amount), i) == Stock(w, i) - (if o.side == Sell && o.item == i then amount else 0)
  {
    var o := w.offers[id];
    assert ValidOffer(w, o);
    if o.amount == amount {
      CloseBooks(w, id, i);
    } else {
      ChangeBooks(w, id, o.(amount := o.amount - amount), i);
      EscrowShrinks(o, amount);
    }
  }

  lemma ChangeBooks(w: World, id: OfferId, o: Offer, j: ItemId)
    requires Inv(w) && id in w.offers && ValidOffer(w, o)
    ensures var w' := w.(offers := w.offers[id := o]);
            && Inv(w') && Gold(w') == Gold(w) - Escrow(w.offers[id]) + Escrow(o)
            && Stock(w', j) == Stock(w, j) - Held(j)(w.offers[id]) + Held(j)(o)
  {
    OfferUpdate(w.offers, id, o, j);
  }

  lemma EscrowShrinks(o: Offer, amount: nat)
    requires amount <= o.amount
    ensures Escrow(o.(amount := o.amount - amount)) == Escrow(o) - (if o.side == Buy then o.price * amount else 0)
  {
    Distribute(o.price, o.amount - amount, amount);
  }

  // ---------------------------------------------------------------- the three operations

  /** The checked limits keep a total price inside 64 bits. */
  lemma PriceFits(price: nat, amount: nat)
    requires price <= MAX_PRICE && amount <= 64000
    ensures 0 <= price * amount <= MAX_PRICE * 64000 < U64
  {
    assert price * amount <= MAX_PRICE * amount;
  }

  lemma CreditBooks(w: World, p: Guid, v: int, j: ItemId)
    requires Inv(w) && p in w.bank && v >= 0
    ensures var w' := CreditBank(w, p, v);
            Inv(w') && Gold(w') == Gold(w) + v && Stock(w', j) == Stock(w, j) && w'.bank.Keys == w.bank.Keys
  {
    AmountUpdate(w.bank, p, w.bank[p] + v);
  }

  lemma CloseBooks(w: World, id: OfferId, j: ItemId)
    requires Inv(w) && id in w.offers
    ensures var w', o := w.(offers := w.offers - {id}), w.offers[id];
            Inv(w') && Gold(w') == Gold(w) - Escrow(o) && Stock(w', j) == Stock(w, j) - Held(j)(o)
  {
    OfferRemoval(w.offers, id, j);
  }

  lemma PublishBooks(w: World, o: Offer, j: ItemId)
    requires Inv(w) && ValidOffer(w, o)
    ensures Inv(Publish(w, o)) && Gold(Publish(w, o)) == Gold(w) + Escrow(o)
    ensures Stock(Publish(w, o), j) == Stock(w, j) + Held(j)(o)
  {
    OfferUpdate(w.offers, w.nextOffer, o, j);
  }

  lemma ChargeBooks(w: World, p: Guid, paid: nat, fee: nat, dropped: nat, j: ItemId)
    requires Inv(w) && p in w.bank && paid <= w.carried[p] + w.bank[p]
    ensures var w' := Charge(w, p, paid, fee, dropped);
            Inv(w') && Gold(w') == Gold(w) - paid && w'.fees == w.fees + fee && Stock(w', j) == Stock(w, j)
            && w'.bank.Keys == w.bank.Keys
  {
    PayBooks(w, p, paid, dropped);
    FeeBooks(w, Pay(w, p, paid, dropped), Charge(w, p, paid, fee, dropped), j);
  }

  lemma FeeBooks(w: World, paid: World, w': World, j: ItemId)
    requires Inv(paid) && SameItems(w, paid) && w' == paid.(fees := w'.fees)
    ensures Inv(w') && Gold(w') == Gold(paid) && Stock(w', j) == Stock(w, j)
  {
    SameStock(w, w', j);
    assert forall id :: id in w'.offers ==> ValidOffer(paid, w'.offers[id]);
  }

  /** Paying for an offer and putting it up. */
  lemma OfferBooks(w: World, p: Guid, paid: nat, fee: nat, dropped: nat, o: Offer, j: ItemId)
    requires Inv(w) && p in w.bank && paid <= w.carried[p] + w.bank[p] && ValidOffer(w, o)
    ensures var w' := Publish(Charge(w, p, paid, fee, dropped), o);
            && Inv(w') && Gold(w') == Gold(w) - paid + Escrow(o) && w'.fees == w.fees + fee
            && Stock(w', j) == Stock(w, j) + Held(j)(o)
  {
    ChargeBooks(w, p, paid, fee, dropped, j);
    PublishBooks(Charge(w, p, paid, fee, dropped), o, j);
  }

  /** Creating an offer: the only gold that leaves is the fee, between its two bounds, and a total
      price fits 64 bits. The number of pieces of an item changes only when a sell offer fails
      for lack of items; then what it found on the way is gone. */
  lemma CreateBooks(w: World, p: Guid, side: Side, i: ItemId, amount: nat, price: nat, stackable: bool,
                    rounded: nat, dropped: nat, j: ItemId)
    requires Inv(w)
    ensures var w' := Create(w, p, side, i, amount, price, stackable, rounded, dropped);
            && Inv(w') && Gold(w') + w'.fees == Gold(w) + w.fees
            && (w'.fees == w.fees || MIN_FEE <= w'.fees - w.fees <= MAX_FEE)
            && (Stock(w', j) == Stock(w, j) <==>
                  side == Buy || i != j || !CreateChecks(w, p, side, amount, price, stackable, rounded)
                  || TakingIsSafe(w, p, i, amount))
  {
    if CreateChecks(w, p, side, amount, price, stackable, rounded) {
      var cost, fee, offer := Cost(side, amount, price, rounded), Fee(rounded), Offer(p, side, i, amount, price);
      assert Escrow(offer) == cost - fee;
      if side == Sell {
        TakeItemsBooks(w, p, i, amount, j);
        var (ok, taken) := TakeItems(w, p, i, amount);
        if ok {
          OfferBooks(taken, p, cost, fee, dropped, offer, j);
        }
      } else {
        OfferBooks(w, p, cost, fee, dropped, offer, j);
      }
    }
  }

  /** Cancelling: the gold of a buy offer always comes back; the items of a sell offer do so
      exactly when the inbox takes all of them. */
  lemma CancelBooks(w: World, p: Guid, id: OfferId, inserted: nat, j: ItemId)
    requires Inv(w)
    ensures var w' := Cancel(w, p, id, inserted);
            && Inv(w') && Gold(w') == Gold(w) && w'.fees == w.fees
            && (Stock(w', j) == Stock(w, j) <==>
                  !CancelChecks(w, p, id) || w.offers[id].side == Buy || w.offers[id].item != j
                  || Accepted(j, w.offers[id].amount, inserted) == w.offers[id].amount)
  {
    if CancelChecks(w, p, id) {
      var o, closed := w.offers[id], w.(offers := w.offers - {id});
      assert ValidOffer(w, o);
      CloseBooks(w, id, j);
      if o.side == Buy {
        PriceFits(o.price, o.amount);
        CreditBooks(closed, p, o.price * o.amount, j);
      } else {
        GiveItemsBooks(closed, p, o.item, Accepted(o.item, o.amount, inserted), j);
      }
    }
  }

  /** A sale makes the gold for every piece that did not arrive, and loses that piece. */
  lemma SaleBooks(w: World, p: Guid, id: OfferId, amount: nat, got: nat, j: ItemId)
    requires Inv(w) && p in w.bank && id in w.offers && w.offers[id].side == Buy
    requires got <= amount <= w.offers[id].amount
    ensures var w', o := Sale(w, p, id, amount, got), w.offers[id];
            && Inv(w') && w'.fees == w.fees
            && Gold(w') == Gold(w) + o.price * amount - o.price * got
            && Stock(w', j) == Stock(w, j) + (if o.item == j then got else 0)
  {
    var o := w.offers[id];
    assert ValidOffer(w, o);
    var paid := CreditBank(w, p, o.price * amount);
    PriceFits(o.price, amount);
    CreditBooks(w, p, o.price * amount, j);
    GiveItemsBooks(paid, o.owner, o.item, got, j);
    ReduceBooks(GiveItems(paid, o.owner, o.item, got), id, got, j);
  }

  /** A purchase keeps every piece; the seller is credited the effective price. */
  lemma PurchaseBooks(w: World, p: Guid, id: OfferId, amount: nat, got: nat, dropped: nat, j: ItemId)
    requires Inv(w) && p in w.bank && id in w.offers && w.offers[id].side == Sell
    requires got <= amount <= w.offers[id].amount && w.offers[id].price * amount <= w.bank[p] + w.carried[p]
    ensures var w', o := Purchase(w, p, id, amount, got, dropped), w.offers[id];
            && Inv(w') && w'.fees == w.fees && Stock(w', j) == Stock(w, j)
            && Gold(w') == Gold(w) - o.price * amount + EffectivePrice(o.price, amount, got)
  {
    var o := w.offers[id];
    assert ValidOffer(w, o);
    var v := EffectivePrice(o.price, amount, got);
    var given := BoughtBooks(w, p, o.price * amount, o.item, got, dropped, j);
    CreditBooks(given, o.owner, v, j);
    ReduceBooks(CreditBank(given, o.owner, v), id, got, j);
  }

  /** The buyer has paid and has what arrived. */
  lemma BoughtBooks(w: World, p: Guid, price: nat, i: ItemId, got: nat, dropped: nat, j: ItemId)
    returns (given: World)
    requires Inv(w) && p in w.bank && price <= w.bank[p] + w.carried[p]
    ensures given == GiveItems(PayBankFirst(w, p, price, dropped), p, i, got)
    ensures Inv(given) && given.offers == w.offers && given.fees == w.fees && given.bank.Keys == w.bank.Keys
    ensures Gold(given) == Gold(w) - price && Stock(given, j) == Stock(w, j) + (if i == j then got else 0)
  {
    var paid := PayBankFirst(w, p, price, dropped);
    PayBankFirstBooks(w, p, price, dropped);
    SameStock(w, paid, j);
    GiveItemsBooks(paid, p, i, got, j);
    given := GiveItems(paid, p, i, got);
  }

  lemma PartialPrice(price: nat, amount: nat, got: nat)
    requires price >= 1 && got <= amount
    ensures EffectivePrice(price, amount, got) == price * amount <==> got == amount
    ensures price * amount == price * got <==> got == amount
  {
    if got < amount {
      assert price % U32 * got <= price * got;
      assert price * got < price * amount;
    }
  }

  /** Whether an acceptance moves gold and items at all: its checks hold and the items are there. */
  predicate Goes(w: World, p: Guid, id: OfferId, amount: nat, stackable: bool) {
    AcceptChecks(w, p, id, amount, stackable)
    && (w.offers[id].side == Buy ==> HasItems(w, p, w.offers[id].item, amount))
  }

  /** Accepting: gold is kept exactly when everything arrives. Pieces are always kept when buying
      from a sell offer; selling into a buy offer keeps them exactly when everything arrives
      and a failed removal took nothing. */
  lemma AcceptBooks(w: World, p: Guid, id: OfferId, amount: nat, stackable: bool, inserted: nat, dropped: nat,
                    j: ItemId)
    requires Inv(w)
    ensures var w' := Accept(w, p, id, amount, stackable, inserted, dropped);
            && Inv(w') && w'.fees == w.fees
            && (Gold(w') == Gold(w) <==>
                  !Goes(w, p, id, amount, stackable) || Accepted(w.offers[id].item, amount, inserted) == amount)
            && (Stock(w', j) == Stock(w, j) <==>
                  !AcceptChecks(w, p, id, amount, stackable) || w.offers[id].side == Sell || w.offers[id].item != j
                  || (if Goes(w, p, id, amount, stackable) then Accepted(j, amount, inserted) == amount
                      else TakingIsSafe(w, p, j, amount)))
  {
    if AcceptChecks(w, p, id, amount, stackable) {
      var o := w.offers[id];
      var got := Accepted(o.item, amount, inserted);
      assert ValidOffer(w, o);
      PartialPrice(o.price, amount, got);
      if o.side == Buy {
        AcceptSaleBooks(w, p, id, amount, got, j);
      } else {
        PurchaseBooks(w, p, id, amount, got, dropped, j);
      }
    }
  }

  /** Selling into a buy offer: taking the items, and the sale if they are there. */
  lemma AcceptSaleBooks(w: World, p: Guid, id: OfferId, amount: nat, got: nat, j: ItemId)
    requires Inv(w) && p in w.bank && p in w.account && id in w.offers && w.offers[id].side == Buy
    requires w.offers[id].owner in w.account
    requires got <= amount <= w.offers[id].amount
    ensures var o := w.offers[id];
            var (ok, taken) := TakeItems(w, p, o.item, amount);
            && (ok <==> HasItems(w, p, o.item, amount))
            && Inv(taken) && taken.offers == w.offers && taken.fees == w.fees && Gold(taken) == Gold(w)
            && (ok ==> var w' := Sale(taken, p, id, amount, got);
                       && Inv(w') && w'.fees == w.fees && Gold(w') == Gold(w) + o.price * amount - o.price * got
                       && Stock(w', j) == Stock(w, j) + (if o.item == j then got - amount else 0))
            && (!ok ==> (Stock(taken, j) == Stock(w, j) <==> o.item != j || TakingIsSafe(w, p, j, amount)))
  {
    var o := w.offers[id];
    TakeItemsBooks(w, p, o.item, amount, j);
    var (ok, taken) := TakeItems(w, p, o.item, amount);
    if ok {
      SaleBooks(taken, p, id, amount, got, j);
    }
  }

  // ---------------------------------------------------------------- who gives and who gets

  /** Gold, on hand or banked. */
  function Purse(w: World, p: Guid): int
    requires p in w.carried && p in w.bank
  {
    w.carried[p] + w.bank[p]
  }

  ghost predicate PursesKept(w: World, w': World, except: set<Guid>) {
    && w'.carried.Keys == w.carried.Keys && w'.bank.Keys == w.bank.Keys
    && forall q :: q in w.bank && q in w.carried && q !in except ==>
         w'.carried[q] == w.carried[q] && w'.bank[q] == w.bank[q]
  }

  /** What holder `h` has of item `i`. */
  function Has(w: World, i: ItemId, h: nat): int {
    Pieces(GoodsOf(w, i, h))
  }

  ghost predicate GoodsKept(w: World, w': World, i: ItemId, except: set<nat>) {
    forall j, h :: j != i || h !in except ==> GoodsOf(w', j, h) == GoodsOf(w, j, h)
  }

  lemma SetMoves(w: World, i: ItemId, h: nat, g: Goods)
    ensures var w' := SetGoods(w, i, h, g);
            w' == w.(goods := w'.goods) && Has(w', i, h) == Pieces(g) && GoodsKept(w, w', i, {h})
  {
  }

  /** Coins go to the account, and other pieces in one more stack to the locker, not to the stash. */
  ghost predicate Delivered(w: World, w': World, i: ItemId, h: nat, amount: nat) {
    var g, g' := GoodsOf(w, i, h), GoodsOf(w', i, h);
    if i == STORE_COIN then g'.stash == g.stash + amount && g'.locker == g.locker
    else g'.stash == g.stash && g'.locker == g.locker + [amount]
  }

  lemma GiveMoves(w: World, p: Guid, i: ItemId, amount: nat)
    requires p in w.account
    ensures var w', h := GiveItems(w, p, i, amount), Holder(w, p, i);
            && w' == w.(goods := w'.goods) && Delivered(w, w', i, h, amount)
            && Has(w', i, h) == Has(w, i, h) + amount && GoodsKept(w, w', i, {h})
  {
    TotalAppend(GoodsOf(w, i, Holder(w, p, i)).locker, amount);
  }

  lemma TakeMoves(w: World, p: Guid, i: ItemId, amount: nat)
    requires p in w.account && HasItems(w, p, i, amount)
    ensures var w', h := TakeItems(w, p, i, amount).1, Holder(w, p, i);
            && TakeItems(w, p, i, amount).0 && w' == w.(goods := w'.goods)
            && Has(w', i, h) == Has(w, i, h) - amount && GoodsKept(w, w', i, {h})
  {
    var g := GoodsOf(w, i, Holder(w, p, i));
    if i == STORE_COIN {
      SetMoves(w, i, w.account[p], g.(stash := g.stash - amount));
    } else {
      RemoveOfferItemsBooks(g, amount);
      SetMoves(w, i, p, RemoveOfferItems(g, amount).1);
    }
  }

  /** Coins first, then the bank; at most `dropped` of the change falls on the tile. */
  ghost predicate CoinsThenBank(w: World, w': World, p: Guid, amount: nat, dropped: nat)
    requires p in w.carried && p in w.bank
  {
    && w'.carried.Keys == w.carried.Keys && w'.bank.Keys == w.bank.Keys && PursesKept(w, w', {p})
    && (amount <= w.carried[p] ==>
          var left := w.carried[p] - amount;
          && w'.bank == w.bank && w'.ground == w.ground + (if dropped < left then dropped else left)
          && w'.carried[p] == left - (if dropped < left then dropped else left))
    && (amount > w.carried[p] ==>
          w'.carried[p] == 0 && w'.ground == w.ground && w'.bank[p] == w.bank[p] - (amount - w.carried[p]))
  }

  /** The bank first, and coins for what it does not cover. */
  ghost predicate BankThenCoins(w: World, w': World, p: Guid, amount: nat, dropped: nat)
    requires p in w.carried && p in w.bank
  {
    && w'.carried.Keys == w.carried.Keys && w'.bank.Keys == w.bank.Keys && PursesKept(w, w', {p})
    && (amount <= w.bank[p] ==>
          w'.carried == w.carried && w'.ground == w.ground && w'.bank[p] == w.bank[p] - amount)
    && (amount > w.bank[p] ==>
          var left := w.carried[p] - (amount - w.bank[p]);
          && w'.bank[p] == 0 && w'.ground == w.ground + (if dropped < left then dropped else left)
          && w'.carried[p] == left - (if dropped < left then dropped else left))
  }

  lemma PayMoves(w: World, p: Guid, amount: nat, dropped: nat)
    requires Inv(w) && p in w.bank && amount <= Purse(w, p)
    ensures var w' := PayBankFirst(w, p, amount, dropped);
            && w' == w.(carried := w'.carried, bank := w'.bank, ground := w'.ground) && PursesKept(w, w', {p})
            && Purse(w', p) + w'.ground == Purse(w, p) + w.ground - amount
            && BankThenCoins(w, w', p, amount, dropped)
  {
  }

  lemma ChargeMoves(w: World, p: Guid, cost: nat, fee: nat, dropped: nat)
    requires Inv(w) && p in w.bank && cost <= Purse(w, p)
    ensures var w' := Charge(w, p, cost, fee, dropped);
            && w' == w.(carried := w'.carried, bank := w'.bank, ground := w'.ground, fees := w.fees + fee)
            && CoinsThenBank(w, w', p, cost, dropped)
  {
  }

  /** What a holder has for a removal: stash and locker, whose stack count has 16 bits; of coins only the
      account's. */
  function InReach(w: World, p: Guid, i: ItemId): nat
    requires p in w.account
  {
    if i == STORE_COIN then GoodsOf(w, i, w.account[p]).stash
    else
      var g := GoodsOf(w, i, p);
      g.stash + (if |g.locker| % U16 == 0 then 0 else Total(g.locker))
  }

  /** Which requests put up an offer. */
  lemma CreateIff(w: World, p: Guid, side: Side, i: ItemId, amount: nat, price: nat, stackable: bool, rounded: nat,
                  dropped: nat)
    requires Inv(w) && p in w.bank
    ensures Create(w, p, side, i, amount, price, stackable, rounded, dropped).offers != w.offers <==>
              && 1 <= price <= 999_999_999_999 && 1 <= amount <= (if stackable then 64000 else 2000)
              && (side == Buy ==> price * amount + Fee(rounded) <= Purse(w, p))
              && (side == Sell ==> Fee(rounded) <= Purse(w, p) && amount <= InReach(w, p, i))
  {
    if CreateChecks(w, p, side, amount, price, stackable, rounded) {
      var (ok, taken) := if side == Sell then TakeItems(w, p, i, amount) else (true, w);
      if side == Sell {
        TakeItemsBooks(w, p, i, amount, i);
      }
      if ok {
        assert w.nextOffer !in w.offers;
        assert w.nextOffer in Create(w, p, side, i, amount, price, stackable, rounded, dropped).offers;
      }
    }
  }

  /** A new offer: it is the one asked for, the owner pays its cost by coins and then by the bank, and
      gives the pieces of a sell offer; all other accounts, goods and offers stay. */
  lemma CreateMoves(w: World, p: Guid, side: Side, i: ItemId, amount: nat, price: nat, stackable: bool,
                    rounded: nat, dropped: nat)
    requires Inv(w) && p in w.bank
    requires Create(w, p, side, i, amount, price, stackable, rounded, dropped).offers != w.offers
    ensures var w' := Create(w, p, side, i, amount, price, stackable, rounded, dropped);
            var cost, holder := Cost(side, amount, price, rounded), if i == STORE_COIN then w.account[p] else p;
            && w'.offers == w.offers[w.nextOffer := Offer(p, side, i, amount, price)]
            && w'.nextOffer == w.nextOffer + 1 && w'.account == w.account && w'.fees == w.fees + Fee(rounded)
            && cost == (if side == Buy then price * amount else 0) + Fee(rounded)
            && CoinsThenBank(w, w', p, cost, dropped)
            && (side == Buy ==> w'.goods == w.goods)
            && (side == Sell ==> GoodsKept(w, w', i, {holder}) && Has(w', i, holder) == Has(w, i, holder) - amount)
  {
    var taken := PiecesTaken(w, p, side, i, amount, price, stackable, rounded, dropped);
    OfferMoves(w, taken, p, Cost(side, amount, price, rounded), Fee(rounded), dropped,
               Offer(p, side, i, amount, price));
    CostIs(side, amount, price, rounded);
    if side == Sell {
      SameGoods(w, taken, Create(w, p, side, i, amount, price, stackable, rounded, dropped), i,
                if i == STORE_COIN then w.account[p] else p);
    }
  }

  lemma CostIs(side: Side, amount: nat, price: nat, rounded: nat)
    ensures Cost(side, amount, price, rounded) == (if side == Buy then price * amount else 0) + Fee(rounded)
  {
  }

  lemma SameGoods(w: World, taken: World, w': World, i: ItemId, holder: nat)
    requires w'.goods == taken.goods && GoodsKept(w, taken, i, {holder})
    ensures GoodsKept(w, w', i, {holder}) && Has(w', i, holder) == Has(taken, i, holder)
  {
  }

  /** The world in which the offer is paid for. */
  lemma PiecesTaken(w: World, p: Guid, side: Side, i: ItemId, amount: nat, price: nat, stackable: bool,
                    rounded: nat, dropped: nat) returns (taken: World)
    requires Inv(w) && p in w.bank
    requires Create(w, p, side, i, amount, price, stackable, rounded, dropped).offers != w.offers
    ensures taken == w.(goods := taken.goods) && (side == Buy ==> taken == w)
    ensures side == Sell ==>
              var holder := if i == STORE_COIN then w.account[p] else p;
              GoodsKept(w, taken, i, {holder}) && Has(taken, i, holder) == Has(w, i, holder) - amount
    ensures Cost(side, amount, price, rounded) <= Purse(w, p)
    ensures Create(w, p, side, i, amount, price, stackable, rounded, dropped)
         == Publish(Charge(taken, p, Cost(side, amount, price, rounded), Fee(rounded), dropped),
                    Offer(p, side, i, amount, price))
  {
    taken := w;
    if side == Sell {
      TakeItemsBooks(w, p, i, amount, i);
      TakeMoves(w, p, i, amount);
      taken := TakeItems(w, p, i, amount).1;
    }
  }

  /** Paying for an offer and putting it up, once its pieces have been taken. */
  lemma OfferMoves(w: World, taken: World, p: Guid, cost: nat, fee: nat, dropped: nat, o: Offer)
    requires Inv(w) && p in w.bank && cost <= Purse(w, p) && taken == w.(goods := taken.goods)
    ensures p in taken.carried && p in taken.bank
    ensures var w' := Publish(Charge(taken, p, cost, fee, dropped), o);
            && w'.offers == w.offers[w.nextOffer := o] && w'.nextOffer == w.nextOffer + 1
            && w'.account == w.account && w'.fees == w.fees + fee && w'.goods == taken.goods
            && CoinsThenBank(w, w', p, cost, dropped)
  {
    ChargeMoves(taken, p, cost, fee, dropped);
  }

  /** What remains of the request that does not put up an offer: nothing, or for a sell offer whose
      pieces are missing the loss of those in reach. */
  lemma CreateFails(w: World, p: Guid, side: Side, i: ItemId, amount: nat, price: nat, stackable: bool,
                    rounded: nat, dropped: nat)
    requires Inv(w) && p in w.bank
    requires Create(w, p, side, i, amount, price, stackable, rounded, dropped).offers == w.offers
    ensures var w' := Create(w, p, side, i, amount, price, stackable, rounded, dropped);
            w' == w || (side == Sell && OnlyLoses(w, w', p, i) && amount > InReach(w, p, i))
  {
    if CreateChecks(w, p, side, amount, price, stackable, rounded) {
      CreateIff(w, p, side, i, amount, price, stackable, rounded, dropped);
      assert side == Sell;
      FailedTake(w, p, i, amount);
    }
  }

  /** All the pieces in reach are gone, and nothing else has changed. */
  ghost predicate OnlyLoses(w: World, w': World, p: Guid, i: ItemId)
    requires p in w.account
  {
    w' == w.(goods := w'.goods) && GoodsKept(w, w', i, {p}) && Has(w', i, p) == Has(w, i, p) - InReach(w, p, i)
  }

  lemma FailedTake(w: World, p: Guid, i: ItemId, amount: nat)
    requires p in w.account
    ensures TakeItems(w, p, i, amount).0 <==> amount <= InReach(w, p, i)
    ensures amount > InReach(w, p, i) ==>
              if i == STORE_COIN then TakeItems(w, p, i, amount).1 == w
              else OnlyLoses(w, TakeItems(w, p, i, amount).1, p, i)
  {
    if i != STORE_COIN {
      var g := GoodsOf(w, i, p);
      RemoveOfferItemsBooks(g, amount);
      SetMoves(w, i, p, RemoveOfferItems(g, amount).1);
    }
  }

  /** Only the owner can cancel an offer, and then always. */
  lemma CancelIff(w: World, p: Guid, id: OfferId, inserted: nat)
    requires Inv(w) && p in w.bank
    ensures Cancel(w, p, id, inserted) != w <==> id in w.offers && w.offers[id].owner == p
  {
    if id in w.offers && w.offers[id].owner == p {
      assert id !in Cancel(w, p, id, inserted).offers;
    }
  }

  /** How many of the pieces the holder receives. */
  function Arriving(i: ItemId, amount: nat, inserted: nat): nat {
    if i != STORE_COIN && inserted <= amount then inserted else amount
  }

  /** A cancelled offer is gone; its owner has the gold of a buy offer in the bank, and of a sell offer
      the pieces that arrive; all other accounts, goods and offers stay. */
  lemma CancelMoves(w: World, p: Guid, id: OfferId, inserted: nat)
    requires Inv(w) && p in w.bank && id in w.offers && w.offers[id].owner == p
    ensures var w', o := Cancel(w, p, id, inserted), w.offers[id];
            var holder := if o.item == STORE_COIN then w.account[p] else p;
            && w' == w.(bank := w'.bank, goods := w'.goods, offers := w.offers - {id})
            && (o.side == Buy ==> w'.bank == w.bank[p := w.bank[p] + o.price * o.amount] && w'.goods == w.goods)
            && (o.side == Sell ==>
                  && w'.bank == w.bank && GoodsKept(w, w', o.item, {holder})
                  && Delivered(w, w', o.item, holder, Arriving(o.item, o.amount, inserted))
                  && Has(w', o.item, holder) == Has(w, o.item, holder) + Arriving(o.item, o.amount, inserted))
  {
    var o := w.offers[id];
    if o.side == Sell {
      GiveMoves(w.(offers := w.offers - {id}), p, o.item, Accepted(o.item, o.amount, inserted));
    }
  }

  /** The requests whose acceptance goes through. */
  lemma GoesIff(w: World, p: Guid, id: OfferId, amount: nat, stackable: bool)
    requires Inv(w) && p in w.bank
    ensures Goes(w, p, id, amount, stackable) <==>
              id in w.offers
              && var o := w.offers[id];
              && o.owner != p && 1 <= amount <= o.amount && amount <= (if stackable then 64000 else 2000)
              && (o.side == Sell ==> o.price * amount <= Purse(w, p))
              && (o.side == Buy ==> amount <= InReach(w, p, o.item))
  {
    if id in w.offers {
      assert ValidOffer(w, w.offers[id]);
      FailedTake(w, p, w.offers[id].item, amount);
      TakeItemsBooks(w, p, w.offers[id].item, amount, 0);
    }
  }

  /** All others change nothing, but for a sale whose pieces are missing, which loses those in reach. */
  lemma AcceptFails(w: World, p: Guid, id: OfferId, amount: nat, stackable: bool, inserted: nat, dropped: nat)
    requires Inv(w) && p in w.bank && !Goes(w, p, id, amount, stackable)
    ensures var w' := Accept(w, p, id, amount, stackable, inserted, dropped);
            w' == w || (id in w.offers && w.offers[id].side == Buy && OnlyLoses(w, w', p, w.offers[id].item)
                        && amount > InReach(w, p, w.offers[id].item))
  {
    if AcceptChecks(w, p, id, amount, stackable) {
      FailedTake(w, p, w.offers[id].item, amount);
      TakeItemsBooks(w, p, w.offers[id].item, amount, 0);
    }
  }

  /** What is left of the offers when some pieces of one are gone. */
  function LeftOver(offers: map<OfferId, Offer>, id: OfferId, got: nat): map<OfferId, Offer>
    requires id in offers && got <= offers[id].amount
  {
    if got == offers[id].amount then offers - {id}
    else offers[id := offers[id].(amount := offers[id].amount - got)]
  }

  /** A sale into a buy offer: the seller is paid in full and gives the pieces, the offer's owner gets
      those that arrive, and by them the offer shrinks; all other accounts, goods and offers stay.
      Coins sold between two characters of one account stay where they are. */
  lemma SaleMoves(w: World, p: Guid, id: OfferId, amount: nat, stackable: bool, inserted: nat, dropped: nat)
    requires Inv(w) && Goes(w, p, id, amount, stackable) && w.offers[id].side == Buy
    ensures var w', o := Accept(w, p, id, amount, stackable, inserted, dropped), w.offers[id];
            var got := Arriving(o.item, amount, inserted);
            var seller := if o.item == STORE_COIN then w.account[p] else p;
            var buyer := if o.item == STORE_COIN then w.account[o.owner] else o.owner;
            && got <= amount && w' == w.(bank := w'.bank, goods := w'.goods, offers := LeftOver(w.offers, id, got))
            && w'.bank == w.bank[p := w.bank[p] + o.price * amount]
            && GoodsKept(w, w', o.item, {seller, buyer})
            && (seller != buyer ==> Has(w', o.item, seller) == Has(w, o.item, seller) - amount
                                    && Has(w', o.item, buyer) == Has(w, o.item, buyer) + got
                                    && Delivered(w, w', o.item, buyer, got))
            && (seller == buyer ==> Has(w', o.item, seller) == Has(w, o.item, seller))
            && (seller == buyer <==> o.item == STORE_COIN && w.account[p] == w.account[o.owner])
  {
    var o := w.offers[id];
    var taken := TakeItems(w, p, o.item, amount).1;
    TakeMoves(w, p, o.item, amount);
    GiveMoves(CreditBank(taken, p, o.price * amount), o.owner, o.item, Accepted(o.item, amount, inserted));
  }

  /** A purchase from a sell offer: the buyer pays in full, bank before coins, and gets the pieces that
      arrive; the offer's owner is credited the price, or when pieces are missing the price of those
      that arrive in 32 bits; all other accounts, goods and offers stay. */
  lemma PurchaseMoves(w: World, p: Guid, id: OfferId, amount: nat, stackable: bool, inserted: nat, dropped: nat)
    requires Inv(w) && Goes(w, p, id, amount, stackable) && w.offers[id].side == Sell
    ensures var w', o := Accept(w, p, id, amount, stackable, inserted, dropped), w.offers[id];
            var got, buyer := Arriving(o.item, amount, inserted), if o.item == STORE_COIN then w.account[p] else p;
            && o.owner != p && got <= amount && w'.fees == w.fees && w'.account == w.account
            && w'.offers == LeftOver(w.offers, id, got) && w'.nextOffer == w.nextOffer
            && w'.carried.Keys == w.carried.Keys && w'.bank.Keys == w.bank.Keys
            && BankThenCoins(w, w'.(bank := w'.bank[o.owner := w.bank[o.owner]]), p, o.price * amount, dropped)
            && w'.bank[o.owner] == w.bank[o.owner] + (if got < amount then o.price % U32 * got % U32
                                                      else o.price * amount)
            && GoodsKept(w, w', o.item, {buyer}) && Has(w', o.item, buyer) == Has(w, o.item, buyer) + got
            && Delivered(w, w', o.item, buyer, got)
  {
    var o, got := w.offers[id], Accepted(w.offers[id].item, amount, inserted);
    assert ValidOffer(w, o);
    var paid := BuyerPaid(w, p, o.price * amount, dropped, o.owner);
    GiveMoves(paid, p, o.item, got);
    OwnerCredited(paid, GiveItems(paid, p, o.item, got), o.owner, EffectivePrice(o.price, amount, got), id, got);
    var w' := Accept(w, p, id, amount, stackable, inserted, dropped);
    SameMoney(w, paid, w'.(bank := w'.bank[o.owner := w.bank[o.owner]]), p, o.price * amount, dropped);
  }

  lemma SameMoney(w: World, a: World, b: World, p: Guid, amount: nat, dropped: nat)
    requires p in w.carried && p in w.bank && BankThenCoins(w, a, p, amount, dropped)
    requires b.carried == a.carried && b.bank == a.bank && b.ground == a.ground
    ensures BankThenCoins(w, b, p, amount, dropped)
  {
  }

  /** The buyer's money, and the owner's when that is credited later. */
  lemma BuyerPaid(w: World, p: Guid, price: nat, dropped: nat, owner: Guid) returns (paid: World)
    requires Inv(w) && p in w.bank && owner in w.bank && owner != p && price <= Purse(w, p)
    ensures paid == PayBankFirst(w, p, price, dropped)
    ensures paid == w.(carried := paid.carried, bank := paid.bank, ground := paid.ground) && owner in paid.bank
    ensures paid.carried.Keys == w.carried.Keys && paid.bank.Keys == w.bank.Keys
    ensures paid.bank[owner] == w.bank[owner] && BankThenCoins(w, paid, p, price, dropped)
  {
    paid := PayBankFirst(w, p, price, dropped);
    PayMoves(w, p, price, dropped);
  }

  lemma OwnerCredited(paid: World, given: World, owner: Guid, credit: nat, id: OfferId, got: nat)
    requires given == paid.(goods := given.goods) && owner in paid.bank && id in paid.offers
    requires got <= paid.offers[id].amount
    ensures var w' := Reduce(CreditBank(given, owner, credit), id, got);
            && w' == paid.(bank := w'.bank, goods := given.goods, offers := LeftOver(paid.offers, id, got))
            && w'.bank.Keys == paid.bank.Keys && w'.bank[owner] == paid.bank[owner] + credit
            && w'.bank[owner := paid.bank[owner]] == paid.bank
  {
  }

  // ---------------------------------------------------------------- own offers

  /** A request that meets all other checks, with the pieces for it there, goes through if and only if
      the offer is not the player's own. */
  lemma OwnOfferIff(w: World, p: Guid, id: OfferId, amount: nat, stackable: bool, inserted: nat, dropped: nat)
    requires Inv(w) && OfferChecks(w, p, id, amount, stackable)
    requires w.offers[id].side == Buy ==> HasItems(w, p, w.offers[id].item, amount)
    ensures Accept(w, p, id, amount, stackable, inserted, dropped) != w <==> w.offers[id].owner != p
  {
    var o := w.offers[id];
    assert ValidOffer(w, o);
    assert o.price * amount > 0;
    if o.owner != p && o.side == Buy {
      TakeMoves(w, p, o.item, amount);
      SellerIsPaid(TakeItems(w, p, o.item, amount).1, p, id, amount, Accepted(o.item, amount, inserted));
    } else if o.owner != p {
      BuyerPays(w, p, id, amount, Accepted(o.item, amount, inserted), dropped);
    }
  }

  lemma SellerIsPaid(w: World, p: Guid, id: OfferId, amount: nat, got: nat)
    requires p in w.bank && id in w.offers && w.offers[id].owner in w.account && got <= w.offers[id].amount
    ensures Sale(w, p, id, amount, got).bank == w.bank[p := w.bank[p] + w.offers[id].price * amount]
  {
  }

  lemma BuyerPays(w: World, p: Guid, id: OfferId, amount: nat, got: nat, dropped: nat)
    requires Inv(w) && p in w.bank && id in w.offers && got <= w.offers[id].amount && w.offers[id].owner != p
    requires w.offers[id].owner in w.bank && w.offers[id].price * amount <= Purse(w, p)
    ensures var w' := Purchase(w, p, id, amount, got, dropped);
            && p in w'.carried && p in w'.bank
            && Purse(w', p) + w'.ground == Purse(w, p) + w.ground - w.offers[id].price * amount
  {
    PayMoves(w, p, w.offers[id].price * amount, dropped);
  }

  /** Which account a character belongs to decides no acceptance. */
  lemma AccountsDoNotMatter(w: World, p: Guid, id: OfferId, amount: nat, stackable: bool, account: map<Guid, nat>)
    requires account.Keys == w.account.Keys
    ensures AcceptChecks(w, p, id, amount, stackable)
        <==> AcceptChecks(w.(account := account), p, id, amount, stackable)
  {
  }

  /** Characters 1 and 2 of account 7: 2 buys from 1 what 1 has on offer for 100. */
  lemma OneAccountWitness() returns (w: World)
    ensures Inv(w) && {1, 2} <= w.account.Keys && w.account[1] == w.account[2]
    ensures var w' := Accept(w, 2, 0, 1, true, 1, 0);
            && {1, 2} <= w'.bank.Keys && {1, 2} <= w'.carried.Keys
            && Purse(w', 1) == Purse(w, 1) + 100 && Has(w', 5, 2) == Has(w, 5, 2) + 1
  {
    var offer := Offer(1, Sell, 5, 1, 100);
    w := World(map[1 := 0, 2 := 0], map[1 := 0, 2 := 100], map[1 := 7, 2 := 7], 0, 0, map[], map[0 := offer], 1);
    assert ValidOffer(w, offer);
    PurchaseMoves(w, 2, 0, 1, true, 1, 0);
    assert Arriving(5, 1, 1) == 1;
  }

  // ---------------------------------------------------------------- whole runs

  datatype Action =
    | CreateOffer(p: Guid, side: Side, item: ItemId, amount: nat, price: nat, stackable: bool, rounded: nat,
                  dropped: nat)
    | CancelOffer(p: Guid, id: OfferId, inserted: nat)
    | AcceptOffer(p: Guid, id: OfferId, amount: nat, stackable: bool, inserted: nat, dropped: nat)

  function Step(w: World, a: Action): World {
    match a
    case CreateOffer(p, side, i, amount, price, stackable, rounded, dropped) =>
      Create(w, p, side, i, amount, price, stackable, rounded, dropped)
    case CancelOffer(p, id, inserted) => Cancel(w, p, id, inserted)
    case AcceptOffer(p, id, amount, stackable, inserted, dropped) =>
      Accept(w, p, id, amount, stackable, inserted, dropped)
  }

  function Run(w: World, actions: seq<Action>): World
    decreases actions
  {
    if actions == [] then w else Run(Step(w, actions[0]), actions[1..])
  }

  /** Whether a step keeps all gold but the fee: an acceptance that goes through has to arrive. */
  predicate KeepsGold(w: World, a: Action) {
    a.AcceptOffer? && Goes(w, a.p, a.id, a.amount, a.stackable) ==>
      Accepted(w.offers[a.id].item, a.amount, a.inserted) == a.amount
  }

  /** Whether a step keeps the number of pieces of item `j`: what moves has to arrive, and where
      pieces are missing nothing may be there to take. */
  predicate KeepsStock(w: World, a: Action, j: ItemId) {
    match a
    case CreateOffer(p, side, i, amount, price, stackable, rounded, dropped) =>
      side == Sell && i == j && CreateChecks(w, p, side, amount, price, stackable, rounded) ==>
        TakingIsSafe(w, p, j, amount)
    case CancelOffer(p, id, inserted) =>
      CancelChecks(w, p, id) && w.offers[id].side == Sell && w.offers[id].item == j ==>
        Accepted(j, w.offers[id].amount, inserted) == w.offers[id].amount
    case AcceptOffer(p, id, amount, stackable, inserted, dropped) =>
      AcceptChecks(w, p, id, amount, stackable) && w.offers[id].side == Buy && w.offers[id].item == j ==>
        if HasItems(w, p, j, amount) then Accepted(j, amount, inserted) == amount else TakingIsSafe(w, p, j, amount)
  }

  /** Both conditions are exact, for every step. */
  lemma StepBooks(w: World, a: Action, j: ItemId)
    requires Inv(w)
    ensures var w' := Step(w, a);
            && Inv(w') && w.fees <= w'.fees <= w.fees + MAX_FEE
            && (Gold(w') + w'.fees == Gold(w) + w.fees <==> KeepsGold(w, a))
            && (Stock(w', j) == Stock(w, j) <==> KeepsStock(w, a, j))
  {
    match a
    case CreateOffer(p, side, i, amount, price, stackable, rounded, dropped) =>
      CreateBooks(w, p, side, i, amount, price, stackable, rounded, dropped, j);
    case CancelOffer(p, id, inserted) =>
      CancelBooks(w, p, id, inserted, j);
    case AcceptOffer(p, id, amount, stackable, inserted, dropped) =>
      AcceptBooks(w, p, id, amount, stackable, inserted, dropped, j);
  }

  /** The inbox takes all the pieces of every acceptance. Requests may be as wrong as clients make
      them. */
  predicate AllArrive(actions: seq<Action>) {
    forall i :: 0 <= i < |actions| && actions[i].AcceptOffer? ==> actions[i].inserted >= actions[i].amount
  }

  /** Over every run of requests in which acceptances arrive, the gold of the game falls exactly by
      the fees. */
  lemma {:induction false} RunKeepsGold(w: World, actions: seq<Action>)
    requires Inv(w) && AllArrive(actions)
    ensures var w' := Run(w, actions);
            && Inv(w') && Gold(w') + w'.fees == Gold(w) + w.fees
            && w.fees <= w'.fees <= w.fees + MAX_FEE * |actions|
    decreases actions
  {
    if actions != [] {
      StepBooks(w, actions[0], 0);
      assert forall i :: 0 <= i < |actions[1..]| ==> actions[1..][i] == actions[i + 1];
      RunKeepsGold(Step(w, actions[0]), actions[1..]);
    }
  }

  ghost predicate StockRun(w: World, actions: seq<Action>, j: ItemId)
    decreases actions
  {
    actions != [] ==> KeepsStock(w, actions[0], j) && StockRun(Step(w, actions[0]), actions[1..], j)
  }

  /** Over every run in which pieces of an item arrive and no failed removal finds any, as many
      pieces remain as there were, on offer or in hand. */
  lemma {:induction false} RunKeepsStock(w: World, actions: seq<Action>, j: ItemId)
    requires Inv(w) && StockRun(w, actions, j)
    ensures Inv(Run(w, actions)) && Stock(Run(w, actions), j) == Stock(w, j)
    decreases actions
  {
    if actions != [] {
      StepBooks(w, actions[0], j);
      RunKeepsStock(Step(w, actions[0]), actions[1..], j);
    }
  }

  // ---------------------------------------------------------------- payment by coins

  /** The payment of a cylinder, coins and bank together, is the market's payment, with `dropped`
      what its change left on the tile. */
  lemma PaysAsCylinder(w: World, p: Guid, m: seq<Money.Entry>, things: seq<Money.Thing>, stacks: Money.Stacks,
                       tile: seq<Money.Stack>, firstNew: nat, price: nat, things': seq<Money.Thing>,
                       stacks': Money.Stacks, tile': seq<Money.Stack>, bank': nat) returns (dropped: nat)
    requires Inv(w) && p in w.bank && price > 0
    requires w.carried[p] == Money.GetMoney(things, stacks) == Money.Sum(m)
    requires Money.Settled(m, stacks, tile, firstNew, w.bank[p], price, stacks', tile', bank')
    requires Money.GetMoney(things', stacks') + Money.TileWorth(tile') + bank' + price
          == w.carried[p] + Money.TileWorth(tile) + w.bank[p]
    ensures Pay(w, p, price, dropped)
         == w.(carried := w.carried[p := Money.GetMoney(things', stacks')], bank := w.bank[p := bank'],
               ground := w.ground + dropped)
    ensures dropped == Money.TileWorth(tile') - Money.TileWorth(tile)
  {
    Money.PayOwes(m, stacks, price);
    TileGrows(tile, tile');
    dropped := Money.TileWorth(tile') - Money.TileWorth(tile);
  }

  lemma {:induction false} TileGrows(tile: seq<Money.Stack>, tile': seq<Money.Stack>)
    requires tile <= tile'
    ensures Money.TileWorth(tile) <= Money.TileWorth(tile')
    decreases |tile'|
  {
    if tile != tile' {
      TileGrows(tile, tile'[..|tile'| - 1]);
    }
  }

  /** A player's cylinder pays, and the market's payment describes what it did. */
  method PayByCylinder(c: Money.Cylinder, ghost w: World, p: Guid, price: nat, room: nat -> bool)
    returns (ok: bool, ghost dropped: nat)
    requires c.Valid() && c.isPlayer && 0 < price < U64
    requires Inv(w) && p in w.bank && w.bank[p] == c.bank && w.carried[p] == Money.GetMoney(c.things, c.stacks)
    modifies c
    ensures c.Valid() && ok == Money.Suffices(old(Money.GetMoney(c.things, c.stacks)), old(c.bank), price)
    ensures ok ==>
              Pay(w, p, price, dropped)
              == w.(carried := w.carried[p := Money.GetMoney(c.things, c.stacks)], bank := w.bank[p := c.bank],
                    ground := w.ground + dropped)
  {
    ghost var m, things, stacks, tile, firstNew := c.MoneyMap(), c.things, c.stacks, c.tile, c.nextId;
    c.MoneyMapFacts();
    ok := c.RemoveMoney(price, true, room);
    dropped := 0;
    if ok {
      dropped := PaysAsCylinder(w, p, m, things, stacks, tile, firstNew, price, c.things, c.stacks, c.tile, c.bank);
    }
  }

  // ---------------------------------------------------------------- the market

  class MarketPlace {
    const account: map<Guid, nat>
    var carried: map<Guid, int>
    var bank: map<Guid, int>
    var ground: int
    var fees: int
    var goods: map<ItemId, map<nat, Goods>>
    var offers: map<OfferId, Offer>
    var nextOffer: OfferId

    ghost function View(): World
      reads this
    {
      World(carried, bank, account, ground, fees, goods, offers, nextOffer)
    }

    constructor (w: World)
      ensures View() == w
    {
      account, carried, bank, ground := w.account, w.carried, w.bank, w.ground;
      fees, goods, offers, nextOffer := w.fees, w.goods, w.offers, w.nextOffer;
    }

    method HeldGoods(i: ItemId, holder: nat) returns (g: Goods)
      ensures g == GoodsOf(View(), i, holder)
    {
      g := if i in goods && holder in goods[i] then goods[i][holder] else Goods(0, []);
    }

    method Store(i: ItemId, holder: nat, g: Goods)
      modifies this`goods
      ensures View() == SetGoods(old(View()), i, holder, g)
    {
      goods := goods[i := (if i in goods then goods[i] else map[])[holder := g]];
    }

    /** The loop over the locker's stacks. */
    method RemoveStacks(stacks: seq<nat>, removeAmount: nat) returns (rest: seq<nat>, removedCount: nat)
      ensures (rest, removedCount) == TakeStacks(stacks, removeAmount)
    {
      rest, removedCount := stacks, 0;
      assert stacks[0..] == stacks;
      for k := 0 to |stacks|
        invariant rest == stacks[k..] && removedCount <= removeAmount
        invariant var (r, got) := TakeStacks(stacks[k..], removeAmount - removedCount);
                  TakeStacks(stacks, removeAmount) == (r, removedCount + got)
      {
        if removedCount >= removeAmount {
          break;
        }
        assert stacks[k..][1..] == stacks[k + 1..];
        var thisRemove := if removeAmount - removedCount < stacks[k] then removeAmount - removedCount else stacks[k];
        removedCount := removedCount + thisRemove;
        if thisRemove == stacks[k] {
          rest := rest[1..];
        } else {
          rest := [stacks[k] - thisRemove] + rest[1..];
          return;
        }
      }
    }

    /** `removeOfferItems`. */
    method RemoveOfferItems(p: Guid, i: ItemId, amount: nat) returns (ok: bool)
      requires i != STORE_COIN && p in account
      modifies this`goods
      ensures (ok, View()) == TakeItems(old(View()), p, i, amount)
    {
      var g := HeldGoods(i, p);
      var removeAmount := amount;
      if g.stash > 0 {
        if removeAmount > g.stash {
          removeAmount := removeAmount - g.stash;
          g := g.(stash := 0);
        } else {
          g := g.(stash := g.stash - removeAmount);
          removeAmount := 0;
        }
      }
      ok := true;
      if removeAmount > 0 {
        var totalCount := |g.locker| % U16;
        if totalCount == 0 {
          ok := false;
        } else {
          var locker, removedCount := RemoveStacks(g.locker, removeAmount);
          TakeStacksTotal(g.locker, removeAmount);
          g := g.(locker := locker);
          ok := removedCount >= removeAmount;
        }
      }
      Store(i, p, g);
    }

    method Take(p: Guid, i: ItemId, amount: nat) returns (ok: bool)
      requires p in account
      modifies this`goods
      ensures (ok, View()) == TakeItems(old(View()), p, i, amount)
    {
      if i == STORE_COIN {
        var g := HeldGoods(i, account[p]);
        if amount > g.stash {
          return false;
        }
        Store(i, account[p], g.(stash := g.stash - amount));
        ok := true;
      } else {
        ok := RemoveOfferItems(p, i, amount);
      }
    }

    method Give(p: Guid, i: ItemId, amount: nat)
      requires p in account
      modifies this`goods
      ensures View() == GiveItems(old(View()), p, i, amount)
    {
      var holder := if i == STORE_COIN then account[p] else p;
      var g := HeldGoods(i, holder);
      Store(i, holder, if i == STORE_COIN then g.(stash := g.stash + amount) else g.(locker := g.locker + [amount]));
    }

    /** `removeMoney` with the balance, as specified by the payment of a cylinder. */
    method RemoveMoney(p: Guid, amount: nat, dropped: nat)
      requires p in carried && p in bank
      modifies this`carried, this`bank, this`ground
      ensures View() == Pay(old(View()), p, amount, dropped)
    {
      var owed := if carried[p] < amount then amount - carried[p] else 0;
      var left := carried[p] - (amount - owed);
      var onTile := if dropped < left then dropped else left;
      carried, bank, ground := carried[p := left - onTile], bank[p := bank[p] - owed], ground + onTile;
    }

    method PlayerCreateMarketOffer(p: Guid, side: Side, i: ItemId, amount: nat, price: nat, stackable: bool,
                                   rounded: nat, dropped: nat)
      requires Wired(View())
      modifies this
      ensures View() == Create(old(View()), p, side, i, amount, price, stackable, rounded, dropped)
    {
      if p !in bank || price == 0 || price > MAX_PRICE {
        return;
      }
      if amount == 0 || (!stackable && amount > 2000) || (stackable && amount > 64000) {
        return;
      }
      var totalPrice := price * amount;
      var fee := Fee(rounded);
      if side == Sell {
        if fee > carried[p] + bank[p] {
          return;
        }
        var ok := Take(p, i, amount);
        if !ok {
          return;
        }
        totalPrice := 0;
      } else if totalPrice + fee > carried[p] + bank[p] {
        return;
      }
      PayForOffer(p, totalPrice, fee, dropped);
      CreateOffer(Offer(p, side, i, amount, price));
    }

    method PayForOffer(p: Guid, totalPrice: nat, fee: nat, dropped: nat)
      requires p in bank && p in carried && totalPrice + fee <= carried[p] + bank[p]
      modifies this`carried, this`bank, this`ground, this`fees
      ensures View() == Charge(old(View()), p, totalPrice + fee, fee, dropped)
    {
      RemoveMoney(p, totalPrice + fee, dropped);
      fees := fees + fee;
    }

    method CreateOffer(o: Offer)
      modifies this`offers, this`nextOffer
      ensures View() == Publish(old(View()), o)
    {
      offers, nextOffer := offers[nextOffer := o], nextOffer + 1;
    }

    method SetBank(p: Guid, v: int)
      requires p in bank
      modifies this`bank
      ensures View() == CreditBank(old(View()), p, v - old(bank[p]))
    {
      bank := bank[p := v];
    }

    method PlayerCancelMarketOffer(p: Guid, id: OfferId, inserted: nat)
      requires Wired(View())
      modifies this
      ensures View() == Cancel(old(View()), p, id, inserted)
    {
      if id !in offers || p !in bank {
        return;
      }
      var offer := offers[id];
      if offer.owner != p {
        return;
      }
      offers := offers - {id};
      if offer.side == Buy {
        SetBank(p, bank[p] + offer.price * offer.amount);
      } else {
        Give(p, offer.item, Accepted(offer.item, offer.amount, inserted));
      }
    }

    method PlayerAcceptMarketOffer(p: Guid, id: OfferId, amount: nat, stackable: bool, inserted: nat, dropped: nat)
      requires Wired(View())
      modifies this
      ensures View() == Accept(old(View()), p, id, amount, stackable, inserted, dropped)
    {
      if p !in bank || id !in offers {
        return;
      }
      var offer := offers[id];
      if amount == 0 || (!stackable && amount > 2000) || (stackable && amount > 64000) || amount > offer.amount {
        return;
      }
      if p == offer.owner {
        return;
      }
      var processed := Accepted(offer.item, amount, inserted);
      if offer.side == Buy {
        var ok := Take(p, offer.item, amount);
        if ok {
          FinishSale(p, id, amount, processed);
        }
      } else if offer.price * amount <= bank[p] + carried[p] {
        FinishPurchase(p, id, amount, processed, dropped);
      }
    }

    /** The remainder of the branch for a buy offer. */
    method FinishSale(p: Guid, id: OfferId, amount: nat, processed: nat)
      requires Wired(View()) && p in bank && id in offers && processed <= offers[id].amount
      modifies this
      ensures View() == Sale(old(View()), p, id, amount, processed)
    {
      var offer := offers[id];
      SetBank(p, bank[p] + offer.price * amount);
      Give(offer.owner, offer.item, processed);
      ReduceOffer(id, processed);
    }

    /** The remainder of the branch for a sell offer. */
    method FinishPurchase(p: Guid, id: OfferId, amount: nat, processed: nat, dropped: nat)
      requires Wired(View()) && p in bank && id in offers && processed <= offers[id].amount
      modifies this
      ensures View() == Purchase(old(View()), p, id, amount, processed, dropped)
    {
      var offer := offers[id];
      var totalPrice := offer.price * amount;
      if totalPrice <= bank[p] {
        SetBank(p, bank[p] - totalPrice);
      } else {
        var remainsPrice := totalPrice - bank[p];
        SetBank(p, 0);
        RemoveMoney(p, remainsPrice, dropped);
      }
      assert View() == PayBankFirst(old(View()), p, totalPrice, dropped);
      Give(p, offer.item, processed);
      SetBank(offer.owner, bank[offer.owner] + EffectivePrice(offer.price, amount, processed));
      ReduceOffer(id, processed);
    }

    method ReduceOffer(id: OfferId, amount: nat)
      requires id in offers && amount <= offers[id].amount
      modifies this`offers
      ensures View() == Reduce(old(View()), id, amount)
    {
      var offer := offers[id];
      if offer.amount == amount {
        offers := offers - {id};
      } else {
        offers := offers[id := offer.(amount := offer.amount - amount)];
      }
    }
  }

  /** Every player has a purse, a bank account and a game account, and every offer an owner. */
  ghost predicate Wired(w: World) {
    && w.carried.Keys == w.bank.Keys == w.account.Keys
    && forall id :: id in w.offers ==> w.offers[id].owner in w.bank
  }
}
